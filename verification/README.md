# Replicated host load balancer (GauXC) in Dafny

This project models how GauXC's replicated host load balancer builds the
integration tasks of one rank, and how the host load-balancer factory turns
a kernel name into a balancer.

`HostReplicatedLoadBalancer::create_local_tasks_` works in these steps:

1. It walks the atoms of the molecule. For each one, every quadrature batch
   of the atom's grid becomes a task (`XCTask`).
2. A batch is skipped when it has no points. It is also skipped when
   micro-batch screening leaves no shell of the basis.
3. The tasks of an atom are pushed by a parallel loop in any order. They are
   then sorted by global batch index.
4. Each task is padded to a multiple of the pad value, using zero-weight
   copies of its first point.
5. Each task is charged to the least-loaded rank; ties go to the lowest rank.
   The workload ledger is shared across atoms. The rank keeps only the tasks
   charged to itself.
6. The kept tasks are sorted by (parent atom, shell list).
7. Equivalent neighbours are reduced with `std::unique`. The points and
   weights of each run of equivalent tasks are merged into that run's first
   task.

`LoadBalancerHostFactory::get_shared_instance` has two overloads, one and two
bases. It upper-cases the kernel name and maps DEFAULT and REPLICATED to
REPLICATED-PETITE. It builds the petite or the fill-in balancer, or fails
with "Load Balancer Kernel Not Recognized: " followed by the upper-cased name.

Modules:

- `Wrappers`: `Option` and `Result`.
- `Sorting`: strict weak orders, sortedness, and a stable insertion sort. Two
  sorted permutations under a strict order are equal.
- `XCTask`: the task record, `equiv_with`, the lexicographic task order, and
  `merge_with`.
- `Padding`: the padding step.
- `Greedy`: the workload ledger and first-minimum choice, the balance bound,
  and what each rank keeps.
- `Canonical`: `std::unique` and the merge pass. They are given twice: as the
  source's loops, and as a group-based reference (`Collapse`).
- `ReplicatedHost`: the whole pass, as a specification (`Plan`, `LocalTasks`)
  and as an algorithm (`CreateLocalTasks`).
- `ReplicatedFacts`: properties of the whole pass.
- `HostFactory`: kernel-name resolution.

Assumed readings of collaborators whose bodies are not part of this model:

- `equiv_with` means same `iParent` and same primary shell list (`XCTask.Equiv`).
- `merge_with` appends the other tasks' points and weights in order, and sets
  `npts` to the new point count (`XCTask.MergeWith`).
- The grid batcher and `micro_batch_screen` are inputs: a sequence of batches
  per atom (`ReplicatedHost.Batch`) and screening functions (`Setup.screen`,
  `Setup.screen2`).
- `XCTask::cost` is any function to naturals (`Setup.cost`).
- `dist_nearest` is a sequence of reals that is copied through.
- The OpenMP push order is a parameter `arrival` of `CreateLocalTasks`. It may
  be any permutation of the atom's candidates.

## Model

| member | source | states |
|---|---|---|
| ReplicatedHost.MakeTask | src/load_balancer/host/replicated_host_load_balancer.cxx:52-92 | A batch yields a task iff it has points and its primary screening keeps at least one shell (the skips at lines 57 and 70). The task has the atom as parent and the batch's points and weights, with npts equal to the point count. It carries the primary screening, the second screening only when a second basis exists, and the atom's nearest distance. |
| ReplicatedHost.Candidates | src/load_balancer/host/replicated_host_load_balancer.cxx:50-92 | The candidates of an atom carry global indices in [offset, offset + nbatches) and are strictly increasing in that index. |
| ReplicatedHost.CandidatesSound | src/load_balancer/host/replicated_host_load_balancer.cxx:50-92 | Every candidate is exactly the task its batch index yields. |
| ReplicatedHost.CandidatesComplete | src/load_balancer/host/replicated_host_load_balancer.cxx:50-92 | Every batch that yields a task has a candidate with its global index. |
| ReplicatedHost.BuildCandidates | src/load_balancer/host/replicated_host_load_balancer.cxx:49-94 | The batch loop, run in batch order, produces the reference candidate list. |
| ReplicatedHost.SortByIndex | src/load_balancer/host/replicated_host_load_balancer.cxx:104-107 | The result is sorted by batch index and is a permutation of what was pushed. |
| ReplicatedHost.ArrivalOrderIrrelevant | src/load_balancer/host/replicated_host_load_balancer.cxx:89-107 | Any permutation of an atom's candidates sorts back to batch order, so the round does not depend on push order. |
| ReplicatedHost.IndexLessIsStrictWeakOrder | src/load_balancer/host/replicated_host_load_balancer.cxx:104-107 | Comparing by batch index alone is a strict weak order, as std::sort requires. |
| Sorting.Insert | src/load_balancer/host/replicated_host_load_balancer.cxx:104-107 | Inserting into a sorted list gives a sorted list whose multiset gains exactly the new element. |
| Sorting.InsertionSort | src/load_balancer/host/replicated_host_load_balancer.cxx:170-171 | The result is sorted under the given strict weak order and is a permutation of the input. |
| Sorting.SortedUnique | src/load_balancer/host/replicated_host_load_balancer.cxx:104-107 | A strictly sorted list is the only sorted arrangement of its elements: any sorted permutation of it equals it. |
| Padding.PadCount | src/load_balancer/host/replicated_host_load_balancer.cxx:116-119 | The number of added entries brings the count to a multiple of the pad value. It is below the pad value, and zero exactly when the count is already a multiple. |
| Padding.RoundUpIsMultiple | src/load_balancer/host/replicated_host_load_balancer.cxx:119 | pad - n % pad is in (0, pad] and takes n to the next multiple of pad. It is below pad when n is not a multiple. |
| Padding.Repeat | src/load_balancer/host/replicated_host_load_balancer.cxx:123 | Inserting k copies adds k entries, all equal to the copied value. |
| Padding.PadPoints | src/load_balancer/host/replicated_host_load_balancer.cxx:118-123 | The padded points keep the originals as a prefix, and every appended point is the first point. |
| Padding.PadWeights | src/load_balancer/host/replicated_host_load_balancer.cxx:126 | The padded weights keep the originals as a prefix, and every appended weight is 0.0. |
| Padding.PadTaskSpec | src/load_balancer/host/replicated_host_load_balancer.cxx:116-130 | After padding, the point count is a multiple of the pad value. Fewer than pad points are added. Points and weights keep the originals as a prefix. Appended points equal the first point and appended weights are 0.0. npts equals the point count, and equal lengths stay equal. A task already at a multiple is unchanged. Parent and screening are unchanged. |
| Padding.PadPreservesWeightSum | src/load_balancer/host/replicated_host_load_balancer.cxx:125-126 | Padding leaves the sum of the weights unchanged. |
| ReplicatedHost.PadAll | src/load_balancer/host/replicated_host_load_balancer.cxx:110-130 | Every task of the round is padded, position by position. |
| ReplicatedHost.Costs | src/load_balancer/host/replicated_host_load_balancer.cxx:138 | Entry k is the cost heuristic of task k, called with n_deriv = 1 and the atom count. |
| Greedy.FirstMin | src/load_balancer/host/replicated_host_load_balancer.cxx:133-135 | The chosen index holds a smallest entry, and every earlier entry is strictly larger: ties go to the lowest rank. |
| Greedy.Owners | src/load_balancer/host/replicated_host_load_balancer.cxx:133-141 | One owner per task, each a valid rank. |
| Greedy.AssignmentStep | src/load_balancer/host/replicated_host_load_balancer.cxx:133-138 | Task i goes to the first rank holding the minimum of the ledger before it. Only that entry changes, and it grows by task i's cost. |
| Greedy.LedgerMonotone | src/load_balancer/host/replicated_host_load_balancer.cxx:138 | No ledger entry ever decreases. |
| Greedy.LedgerTotal | src/load_balancer/host/replicated_host_load_balancer.cxx:138 | The ledger total grows by exactly the sum of the charged costs. |
| Greedy.ChargeBalanced | src/load_balancer/host/replicated_host_load_balancer.cxx:133-138 | Charging a cost of at most `bound` to the least-loaded rank keeps max - min within `bound`. |
| Greedy.LedgerBalanced | src/load_balancer/host/replicated_host_load_balancer.cxx:133-138 | Starting balanced, with every cost at most `bound`, the ledger stays within `bound` after every step. |
| Greedy.LedgerAppend | src/load_balancer/host/replicated_host_load_balancer.cxx:26 | The ledger outlives the rounds: charging two streams in turn is charging their concatenation. |
| Greedy.OwnersAppend | src/load_balancer/host/replicated_host_load_balancer.cxx:26 | The ranks chosen for a concatenated stream are those of the first part, then those of the second part charged on the ledger the first part left. |
| Greedy.KeepFor | src/load_balancer/host/replicated_host_load_balancer.cxx:140-141 | A rank keeps at most the tasks dealt. |
| Greedy.KeepForMembers | src/load_balancer/host/replicated_host_load_balancer.cxx:140-141 | A task is kept by a rank iff some position holding it was charged to that rank. |
| Greedy.KeepForSubset | src/load_balancer/host/replicated_host_load_balancer.cxx:140-141 | Every kept task is one of the dealt tasks. |
| Greedy.KeepForAppend | src/load_balancer/host/replicated_host_load_balancer.cxx:140-141 | What a rank keeps from two streams in turn is what it keeps from each, concatenated. |
| Greedy.KeepForPartitions | src/load_balancer/host/replicated_host_load_balancer.cxx:140-141 | When every owner is below n, the lists kept by ranks 0..n-1 together are the dealt tasks, each as often as it was dealt. |
| Greedy.RankUnionIsBelow | src/load_balancer/host/replicated_host_load_balancer.cxx:140-141 | The lists kept by ranks below n together are exactly the tasks whose owner is below n. |
| ReplicatedHost.ChargeMin | src/load_balancer/host/replicated_host_load_balancer.cxx:133-138 | The left-to-right scan of std::min_element ends on the first index holding the minimum (`Greedy.FirstMin`). That entry grows by the cost, and every other entry is unchanged. |
| ReplicatedHost.ScanIsCharge | src/load_balancer/host/replicated_host_load_balancer.cxx:133-138 | The ledger the scan leaves is the reference ledger charged at its first minimum (`Greedy.Charge`). |
| ReplicatedHost.AssignRound | src/load_balancer/host/replicated_host_load_balancer.cxx:110-143 | The loop over a round gives the reference ledger. It keeps exactly the padded tasks whose chosen rank is world_rank, in order. |
| ReplicatedHost.LedgerRoundStep | src/load_balancer/host/replicated_host_load_balancer.cxx:133-138 | Dealing one more padded task charges its cost to the current first minimum. |
| ReplicatedHost.KeptRoundStep | src/load_balancer/host/replicated_host_load_balancer.cxx:140-141 | Dealing one more task appends it to the kept list iff the first minimum is world_rank. |
| ReplicatedHost.Plan | src/load_balancer/host/replicated_host_load_balancer.cxx:40-154 | Dealing atom by atom gives one owner per task, each below world_size, and a ledger of world_size entries. |
| ReplicatedFacts.PlanIsOnePass | src/load_balancer/host/replicated_host_load_balancer.cxx:26-154 | Dealing atom by atom on the shared ledger is one greedy pass over all tasks from an idle ledger. |
| ReplicatedFacts.PlanBalanced | src/load_balancer/host/replicated_host_load_balancer.cxx:133-138 | If no task costs more than `bound`, the final loads differ by at most `bound`. The total load is the total cost. |
| Greedy.KeptByRanksUnion | src/load_balancer/host/replicated_host_load_balancer.cxx:140-141 | Laying the kept lists of ranks 0..n-1 end to end holds exactly their multiset union. |
| ReplicatedFacts.WorkPartitioned | src/load_balancer/host/replicated_host_load_balancer.cxx:26-141 | Over world_rank in [0, world_size), the local lists partition the padded tasks: each appears exactly as often as it was dealt. |
| ReplicatedFacts.RoundTaskReady | src/load_balancer/host/replicated_host_load_balancer.cxx:57-130 | Each task of a round has points, a non-empty shell list, a padded point count and npts equal to its point count. It keeps one weight per point when the batches do. |
| ReplicatedFacts.RoundReady | src/load_balancer/host/replicated_host_load_balancer.cxx:57-130 | The same for every task of a round. |
| ReplicatedFacts.PlanReady | src/load_balancer/host/replicated_host_load_balancer.cxx:40-154 | The same for every task dealt to any rank. |
| ReplicatedFacts.KeptReady | src/load_balancer/host/replicated_host_load_balancer.cxx:140-171 | The same for every task a rank keeps, in any order. |
| XCTask.ShellLessTrichotomy | src/load_balancer/host/replicated_host_load_balancer.cxx:166 | Two shell lists are either ordered one way or the other, or equal. |
| XCTask.TaskLessIsStrictWeakOrder | src/load_balancer/host/replicated_host_load_balancer.cxx:159-171 | The (iParent, shell list) order is irreflexive and transitive, and incomparability is transitive, as std::sort requires. |
| XCTask.IncomparableIffEquiv | src/load_balancer/host/replicated_host_load_balancer.cxx:159-177 | Two tasks are unordered by the sort iff `equiv_with` holds, so equivalent tasks end up adjacent. |
| XCTask.MergeWith | src/load_balancer/host/replicated_host_load_balancer.cxx:203-212 | Merging keeps the task's key and screening, and leaves npts equal to the point count. |
| XCTask.MergeWithTwice | src/load_balancer/host/replicated_host_load_balancer.cxx:211-212 | Merging tasks one at a time equals merging the whole range at once. |
| XCTask.PayloadPermutation | src/load_balancer/host/replicated_host_load_balancer.cxx:170-171 | Reordering tasks keeps the multisets of all points and of all weights. |
| Canonical.Groups | src/load_balancer/host/replicated_host_load_balancer.cxx:174-184 | The groups are non-empty. There are none only for an empty list, and the first group starts with the first task. |
| Canonical.GroupsFlatten | src/load_balancer/host/replicated_host_load_balancer.cxx:174-184 | Concatenating the groups gives back the list. |
| Canonical.GroupsHomogeneous | src/load_balancer/host/replicated_host_load_balancer.cxx:174-184 | Every task of a group is equivalent to its first task. |
| Canonical.GroupsMaximal | src/load_balancer/host/replicated_host_load_balancer.cxx:174-184 | Neighbouring groups are not equivalent. |
| Canonical.UniqueIsHeads | src/load_balancer/host/replicated_host_load_balancer.cxx:179-184 | std::unique keeps exactly the first task of each group. |
| Canonical.UniqueAfterEquiv | src/load_balancer/host/replicated_host_load_balancer.cxx:180-183 | std::unique's scan depends on the retained task only up to equivalence. |
| Canonical.ClearAll | src/load_balancer/host/replicated_host_load_balancer.cxx:188-192 | Every retained task has its points and weights emptied and npts set to 0. |
| Canonical.MergeGroup | src/load_balancer/host/replicated_host_load_balancer.cxx:188-212 | A group becomes its first task carrying the concatenated points and weights of the whole group, with npts equal to the point count. |
| Canonical.CollapseMergesGroups | src/load_balancer/host/replicated_host_load_balancer.cxx:188-216 | Output k is group k's first task with the in-order concatenation of group k's payloads. There is one output per group. The groups are homogeneous, maximal and flatten back to the input. |
| Canonical.CollapsePreservesPayload | src/load_balancer/host/replicated_host_load_balancer.cxx:188-216 | The concatenated points and weights of the output equal those of the input, so the total point count is preserved. |
| Canonical.CollapseCount | src/load_balancer/host/replicated_host_load_balancer.cxx:179-216 | There are as many outputs as groups and as tasks std::unique keeps, and output k is equivalent to the k-th kept task. |
| Canonical.CollapseNoAdjacentEquiv | src/load_balancer/host/replicated_host_load_balancer.cxx:174-184 | No two neighbouring outputs are equivalent. |
| Canonical.HeadsStrictlySorted | src/load_balancer/host/replicated_host_load_balancer.cxx:170-184 | On a sorted list, the first tasks of the groups are strictly increasing. |
| Canonical.CollapseOfSortedIsStrict | src/load_balancer/host/replicated_host_load_balancer.cxx:158-184 | On a sorted list, the output is strictly increasing in (iParent, shell list). |
| Canonical.CollapseKeysFromInput | src/load_balancer/host/replicated_host_load_balancer.cxx:179-216 | Every output takes its parent atom and screening from some input task, so merging creates no new task. |
| Canonical.ScanWithin | src/load_balancer/host/replicated_host_load_balancer.cxx:197-198 | A task equivalent to the current entry extends the current run. |
| Canonical.ScanAcross | src/load_balancer/host/replicated_host_load_balancer.cxx:197-208 | A task not equivalent to the current entry ends the current run. The cursor is then not at the end, and the completed run is merged into its entry. |
| Canonical.ScanEnd | src/load_balancer/host/replicated_host_load_balancer.cxx:194-211 | After the scan, the cursor is at the last group, which starts at cur_lw_begin. Every earlier group is merged into its entry. |
| Canonical.MergeLastRun | src/load_balancer/host/replicated_host_load_balancer.cxx:210-213 | The final loop merges the tasks from cur_lw_begin on into the cursor's entry and leaves the other entries alone. |
| Canonical.MergeCompletedRuns | src/load_balancer/host/replicated_host_load_balancer.cxx:179-208 | The scan never raises "Messed up in unique". It ends with one entry per group: the completed groups merged, the rest cleared, and the cursor at the last group. |
| Canonical.UniqueAndMerge | src/load_balancer/host/replicated_host_load_balancer.cxx:174-216 | The unique-and-merge code returns the group-based reference `Collapse` of its input and never fails. |
| ReplicatedFacts.ConcatPadded | src/load_balancer/host/replicated_host_load_balancer.cxx:203-212 | Merging padded tasks gives a padded task no smaller than the first, with one weight per point when every part has one. |
| ReplicatedFacts.CollapseReady | src/load_balancer/host/replicated_host_load_balancer.cxx:188-216 | Merging keeps every task non-empty, screened, padded and with npts equal to its point count. |
| ReplicatedFacts.LocalTasksShape | src/load_balancer/host/replicated_host_load_balancer.cxx:158-219 | The returned list is strictly sorted by (iParent, shell list). Every task has points, a non-empty shell list and a padded npts. Together the tasks carry exactly the points and weights the rank kept. |
| ReplicatedHost.CreateLocalTasks | src/load_balancer/host/replicated_host_load_balancer.cxx:18-219 | For any push order of the parallel loop, the pass returns `LocalTasks`: the rank's kept tasks, sorted and with equivalent runs merged. |
| ReplicatedFacts.SortedShape | src/load_balancer/host/replicated_host_load_balancer.cxx:158-219 | For every order std::sort may produce (any sorted permutation of the kept work), the merged list is strictly sorted, every task is ready, and together the tasks carry exactly the kept points and weights. |
| ReplicatedFacts.SortOrderDecidesBfn2 | src/load_balancer/host/replicated_host_load_balancer.cxx:170-216 | Two equivalent tasks with different second screenings are sorted in either order. The merged task takes the second screening of whichever comes first, so the two orders give different results. |
| ReplicatedFacts.ReturnedPayload | src/load_balancer/host/replicated_host_load_balancer.cxx:26-219 | Coverage: the merged lists returned by ranks 0..world_size-1 together hold every point and weight of every dealt task, exactly as often as it was dealt. |
| ReplicatedFacts.PaddedTrace | src/load_balancer/host/replicated_host_load_balancer.cxx:44-216 | A worked run of `Plan` and `LocalTasks` on one atom with batches of 10, 0, 15 and 10 points, pad 4, cost = point count and two ranks. The empty batch is dropped. The others pad to 12, 16 and 12 points and go to ranks 0, 1 and 0, leaving loads of 24 and 16. Rank 0 returns one merged task of 24 points, and rank 1 one task of 16. |
| HostFactory.UpperChar | src/load_balancer/host/load_balancer_host_factory.cxx:21-22 | toupper changes exactly the letters a-z, each to its capital, and never yields a lower-case letter. |
| HostFactory.ToUpper | src/load_balancer/host/load_balancer_host_factory.cxx:21-22 | Upper-casing keeps the length and maps every character through toupper. |
| HostFactory.UpperInPlace | src/load_balancer/host/load_balancer_host_factory.cxx:21-22 | The in-place std::transform loop computes the upper-cased name. |
| HostFactory.ToUpperIdempotent | src/load_balancer/host/load_balancer_host_factory.cxx:21-22 | Upper-casing twice is upper-casing once. |
| HostFactory.ResolveKernel | src/load_balancer/host/load_balancer_host_factory.cxx:21-39 | The petite kernel iff the upper-cased name is DEFAULT, REPLICATED or REPLICATED-PETITE; fill-in iff it is REPLICATED-FILLIN. Any other name fails with "Load Balancer Kernel Not Recognized: " + the upper-cased name. |
| HostFactory.Select | src/load_balancer/host/load_balancer_host_factory.cxx:21-41 | The statement-by-statement body of either overload computes the same result as the name resolution. |
| HostFactory.GetSharedInstance | src/load_balancer/host/load_balancer_host_factory.cxx:15-43 | The single-basis factory succeeds iff the name is recognised, up to case and aliases. It builds the fill-in balancer iff the name is REPLICATED-FILLIN, passes pv on, and screens no second basis. Otherwise it fails with the error message. |
| HostFactory.GetSharedInstanceTwoBasis | src/load_balancer/host/load_balancer_host_factory.cxx:45-73 | The same for the two-basis factory, which also screens the second basis. |
| HostFactory.OverloadsAgree | src/load_balancer/host/load_balancer_host_factory.cxx:15-73 | The two overloads accept the same names, select the same kernel with the same pad value, and fail with the same message. |
| HostFactory.ResolveIgnoresCase | src/load_balancer/host/load_balancer_host_factory.cxx:21-52 | Names that agree up to the case of their letters resolve alike. |
| HostFactory.ResolveIdempotent | src/load_balancer/host/load_balancer_host_factory.cxx:21-37 | Each kernel's own name resolves to it. Resolving the normalised form of an accepted name gives the same kernel. |

## Left out

- The OpenMP parallel loop and critical section (lines 49 and 89-92). Push order is the parameter `arrival`: any permutation of the atom's candidates. Concurrency itself is not modelled.
- `std::sort` is not stable, and `LocalTasks` sorts with a stable insertion sort. For the batch-index sort this makes no difference, since indices are distinct. For the (iParent, shell list) sort, equivalent tasks may come out in any order. That changes the order of points and weights inside a merged task. It also changes which task heads each run. The merged task keeps the head's `bfn2_screening` and `bfn_screening.nbe`, and the head's points come first (`ReplicatedFacts.SortOrderDecidesBfn2`). So `LocalTasks` is one of the results the source may return, not the only one. For every order std::sort may produce, the result is still strictly sorted, ready, and holds exactly the kept points and weights (`ReplicatedFacts.SortedShape`).
- `atBatchSz` is the constant 1, so the flush at line 101 fires after every atom. The model treats each atom as one round.
- Integer widths are not modelled: `int32_t` atom indices, `size_t` counts and workload entries, and the `int64_t` rank. Ledger entries are unbounded naturals, so the overflow of `global_workload` is not modelled.
- Floating point is not modelled. Points are triples of reals that are only copied. Weights are reals, and 0.0 is the padding weight.
- The bodies of the grid batcher, quadrature recentering, `micro_batch_screen`, `XCTask::cost`, `equiv_with`, `merge_with` and `dist_nearest` are not part of this model. They are inputs, or the assumed readings given above.
- The printing of `nbatches` (line 48) is left out. So are the MPI queries (line 22-23): world rank and size are parameters.
- The `shared_ptr`/`unique_ptr` construction and the petite and fill-in balancer classes are left out. The factory returns which kernel it would build, the pad value and whether a second basis is screened.
- The factory's non-ASCII `toupper` behaviour is left out: only a-z are changed, as in the C locale.
- A pad value of 0 is left out: the model requires a positive pad value. In the source, `% 0` would be undefined behaviour.
- `std::unique`/merge edge case: line 198 dereferences `cur_uniq_it` before line 200 checks it against `end()`. The model treats an end cursor as "not equivalent", so the check is the next step. `Canonical.MergeCompletedRuns` shows the cursor never reaches the end.
- On a rank that keeps no task, line 213 increments the `end()` iterator of the empty unique list. That is undefined behaviour in C++, and harmless in practice. The model returns an empty list (`Canonical.UniqueAndMerge`).
- The second screening (`bfn2_screening`) of a task with no second basis is modelled as an empty screening. In the source it stays default-constructed.
- The weights a batch returns are not assumed to match its points. Equal lengths are concluded only under `ReplicatedFacts.WeightsMatch`.
- ReplicatedFacts.RoundReady: proves one weight per point only when every batch has one weight per point. The source itself does not check this.
- Padding.PadTaskSpec: proves equal point and weight lengths only when they were equal before padding. The source appends the same number of each.
- The XC integrator (`reference_replicated_xc_host_integrator_exc_vxc.hpp`) is not part of this model. It is floating-point numerics behind foreign kernels, with OpenMP and MPI reductions.
- The factory header (`load_balancer_host_factory.hpp`) holds only declarations.
