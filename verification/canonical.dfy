/** Canonicalisation of a rank's task list: adjacent equivalent tasks are
    collapsed (std::unique) and every run's points and weights are merged
    into the run's first task.  Line numbers below refer to
    src/load_balancer/host/replicated_host_load_balancer.cxx. */
module Canonical {
  import opened Wrappers
  import opened Sorting
  import opened XCTask

  /** std::unique under `equiv_with`: keeps the first task of every run of
      consecutive equivalent tasks. */
  function Unique(s: seq<Task>): seq<Task> {
    if |s| == 0 then [] else [s[0]] + UniqueAfter(s[0], s[1..])
  }

  /** The scan of std::unique after `kept`, the last task retained so far. */
  function UniqueAfter(kept: Task, s: seq<Task>): seq<Task>
    decreases |s|
  {
    if |s| == 0 then []
    else if Equiv(kept, s[0]) then UniqueAfter(kept, s[1..])
    else [s[0]] + UniqueAfter(s[0], s[1..])
  }

  /** The maximal runs of consecutive equivalent tasks of `s`, in order. */
  function Groups(s: seq<Task>): (gs: seq<seq<Task>>)
    ensures forall k | 0 <= k < |gs| :: |gs[k]| > 0
    ensures |gs| == 0 <==> |s| == 0
    ensures |s| > 0 ==> gs[0][0] == s[0]
    decreases |s|
  {
    if |s| == 0 then []
    else
      var rest := Groups(s[1..]);
      if |rest| > 0 && Equiv(s[0], rest[0][0]) then [[s[0]] + rest[0]] + rest[1..]
      else [[s[0]]] + rest
  }

  function Flatten(gs: seq<seq<Task>>): seq<Task>
    decreases |gs|
  {
    if |gs| == 0 then [] else gs[0] + Flatten(gs[1..])
  }

  /** The first task of every group. */
  function Heads(gs: seq<seq<Task>>): (h: seq<Task>)
    requires forall k | 0 <= k < |gs| :: |gs[k]| > 0
    ensures |h| == |gs| && forall k | 0 <= k < |gs| :: h[k] == gs[k][0]
  {
    seq(|gs|, k requires 0 <= k < |gs| => gs[k][0])
  }

  /** A task with its points and weights removed (lines 188-192). */
  function Cleared(t: Task): Task {
    t.(points := [], weights := [], npts := 0)
  }

  function ClearAll(ts: seq<Task>): (r: seq<Task>)
    ensures |r| == |ts| && forall k | 0 <= k < |ts| :: r[k] == Cleared(ts[k])
  {
    seq(|ts|, k requires 0 <= k < |ts| => Cleared(ts[k]))
  }

  /** One group collapsed into its first task carrying all of the group's
      points and weights. */
  function MergeGroup(g: seq<Task>): (r: Task)
    requires |g| > 0
    ensures Equiv(r, g[0]) && r.bfn == g[0].bfn && r.bfn2 == g[0].bfn2 && r.distNearest == g[0].distNearest
    ensures r.points == AllPoints(g) && r.weights == AllWeights(g) && r.npts == |r.points|
  {
    MergeWith(Cleared(g[0]), g)
  }

  function MergeAll(gs: seq<seq<Task>>): (r: seq<Task>)
    requires forall k | 0 <= k < |gs| :: |gs[k]| > 0
    ensures |r| == |gs| && forall k | 0 <= k < |gs| :: r[k] == MergeGroup(gs[k])
  {
    seq(|gs|, k requires 0 <= k < |gs| => MergeGroup(gs[k]))
  }

  /** The deduplicated, merged list the reconciliation pass produces. */
  function Collapse(s: seq<Task>): seq<Task> {
    MergeAll(Groups(s))
  }

  // ---------------------------------------------------------------------
  // Structure of the groups

  lemma {:induction false} FlattenAppend(a: seq<seq<Task>>, b: seq<seq<Task>>)
    ensures Flatten(a + b) == Flatten(a) + Flatten(b)
    decreases |a|
  {
    if |a| == 0 {
      assert a + b == b;
    } else {
      assert (a + b)[1..] == a[1..] + b;
      FlattenAppend(a[1..], b);
    }
  }

  /** Every task of a group is a task of the flattened list. */
  lemma {:induction false} FlattenMember(gs: seq<seq<Task>>, k: nat, i: nat)
    requires k < |gs| && i < |gs[k]|
    ensures gs[k][i] in Flatten(gs)
    decreases k
  {
    if k > 0 {
      FlattenMember(gs[1..], k - 1, i);
      assert gs[1..][k - 1] == gs[k];
    }
  }

  /** Concatenating the groups gives back the list. */
  lemma {:induction false} GroupsFlatten(s: seq<Task>)
    ensures Flatten(Groups(s)) == s
    decreases |s|
  {
    if |s| > 0 {
      var rest := Groups(s[1..]);
      GroupsFlatten(s[1..]);
      if |rest| > 0 && Equiv(s[0], rest[0][0]) {
        assert Flatten(rest) == rest[0] + Flatten(rest[1..]);
        assert ([[s[0]] + rest[0]] + rest[1..])[1..] == rest[1..];
      } else {
        assert ([[s[0]]] + rest)[1..] == rest;
      }
      assert s == [s[0]] + s[1..];
    }
  }

  /** Every task of a group is equivalent to the group's first task. */
  predicate Homogeneous(gs: seq<seq<Task>>) {
    forall k, j | 0 <= k < |gs| && 0 <= j < |gs[k]| :: Equiv(gs[k][j], gs[k][0])
  }

  /** Neighbouring groups are not equivalent. */
  predicate Maximal(gs: seq<seq<Task>>)
    requires forall k | 0 <= k < |gs| :: |gs[k]| > 0
  {
    forall k | 0 <= k < |gs| - 1 :: !Equiv(gs[k][0], gs[k + 1][0])
  }

  lemma {:induction false} GroupsHomogeneous(s: seq<Task>)
    ensures Homogeneous(Groups(s))
    decreases |s|
  {
    if |s| > 0 {
      GroupsHomogeneous(s[1..]);
      var rest := Groups(s[1..]);
      var gs := Groups(s);
      if |rest| > 0 && Equiv(s[0], rest[0][0]) {
        assert gs[0] == [s[0]] + rest[0];
        forall k, j | 0 <= k < |gs| && 0 <= j < |gs[k]|
          ensures Equiv(gs[k][j], gs[k][0])
        {
          if k > 0 {
            assert gs[k] == rest[k];
            assert Equiv(rest[k][j], rest[k][0]);
          } else if j > 0 {
            assert gs[0][j] == rest[0][j - 1];
            assert Equiv(rest[0][j - 1], rest[0][0]);
          }
        }
      } else {
        assert gs[0] == [s[0]];
        assert forall k | 1 <= k < |gs| :: gs[k] == rest[k - 1];
      }
    }
  }

  lemma {:induction false} GroupsMaximal(s: seq<Task>)
    ensures Maximal(Groups(s))
    decreases |s|
  {
    if |s| > 0 {
      GroupsMaximal(s[1..]);
      var rest := Groups(s[1..]);
      var gs := Groups(s);
      if |rest| > 0 && Equiv(s[0], rest[0][0]) {
        forall k | 0 <= k < |gs| - 1
          ensures !Equiv(gs[k][0], gs[k + 1][0])
        {
          assert gs[k + 1] == rest[k + 1];
          if k > 0 {
            assert gs[k] == rest[k];
          }
          assert !Equiv(rest[k][0], rest[k + 1][0]);
        }
      } else {
        assert gs[0] == [s[0]];
        assert forall k | 1 <= k < |gs| :: gs[k] == rest[k - 1];
      }
    }
  }

  lemma {:induction false} UniqueAfterEquiv(a: Task, b: Task, s: seq<Task>)
    requires Equiv(a, b)
    ensures UniqueAfter(a, s) == UniqueAfter(b, s)
    decreases |s|
  {
    if |s| > 0 && Equiv(a, s[0]) {
      UniqueAfterEquiv(a, b, s[1..]);
    }
  }

  lemma {:induction false} UniqueAfterHeads(s: seq<Task>)
    requires |s| > 0
    ensures UniqueAfter(s[0], s[1..]) == Heads(Groups(s))[1..]
    decreases |s|
  {
    if |s| > 1 {
      var t := s[1..];
      UniqueAfterHeads(t);
      HeadsCons(s);
      assert t[0] == s[1] && t[1..] == s[2..];
      if Equiv(s[0], t[0]) {
        UniqueAfterEquiv(s[0], t[0], t[1..]);
      }
    }
  }

  /** std::unique keeps exactly the first task of every group. */
  lemma UniqueIsHeads(s: seq<Task>)
    ensures Unique(s) == Heads(Groups(s))
  {
    if |s| > 0 {
      UniqueAfterHeads(s);
    }
  }

  /** Locating group `k` in the list once the groups before it are known to
      fill the prefix `s[..begin]`. */
  lemma GroupAt(s: seq<Task>, k: nat, begin: nat)
    requires k < |Groups(s)| && begin <= |s|
    requires Flatten(Groups(s)[..k]) == s[..begin]
    ensures var gs := Groups(s); var end := begin + |gs[k]|;
      && end <= |s|
      && s[begin..end] == gs[k]
      && Flatten(gs[..k + 1]) == s[..end]
      && (end < |s| ==> k + 1 < |gs| && s[end] == gs[k + 1][0])
      && (end == |s| ==> k + 1 == |gs|)
  {
    var gs := Groups(s);
    GroupsFlatten(s);
    FlattenSplit(gs, k);
    ThreeParts(s, Flatten(gs[..k]), gs[k], Flatten(gs[k + 1..]));
    FlattenSnoc(gs, k);
    if k + 1 < |gs| {
      FlattenCons(gs[k + 1..]);
      assert gs[k + 1..][0] == gs[k + 1];
    } else {
      assert gs[k + 1..] == [];
    }
  }

  lemma FlattenCons(gs: seq<seq<Task>>)
    requires |gs| > 0
    ensures Flatten(gs) == gs[0] + Flatten(gs[1..])
  {
  }

  /** The list of groups split around group `k`. */
  lemma FlattenSplit(gs: seq<seq<Task>>, k: nat)
    requires k < |gs|
    ensures Flatten(gs) == Flatten(gs[..k]) + gs[k] + Flatten(gs[k + 1..])
  {
    assert gs == gs[..k] + gs[k..];
    FlattenAppend(gs[..k], gs[k..]);
    assert gs[k..][1..] == gs[k + 1..];
    FlattenCons(gs[k..]);
  }

  lemma FlattenSnoc(gs: seq<seq<Task>>, k: nat)
    requires k < |gs|
    ensures Flatten(gs[..k + 1]) == Flatten(gs[..k]) + gs[k]
  {
    assert gs[..k + 1] == gs[..k] + [gs[k]];
    FlattenAppend(gs[..k], [gs[k]]);
    assert Flatten([gs[k]]) == gs[k] + Flatten([]);
  }

  /** The parts of a three-way concatenation, recovered by slicing. */
  lemma ThreeParts<T>(s: seq<T>, a: seq<T>, b: seq<T>, c: seq<T>)
    requires s == a + b + c
    ensures |a| + |b| <= |s|
    ensures s[..|a|] == a && s[|a|..|a| + |b|] == b
    ensures s[..|a| + |b|] == a + b && s[|a| + |b|..] == c
  {
  }

  // ---------------------------------------------------------------------
  // What the collapsed list is

  /** Merge correctness: output task `k` is the first task of group `k`
      carrying the in-order concatenation of that group's points and weights,
      and the groups are the maximal runs of equivalent tasks of `s`. */
  lemma CollapseMergesGroups(s: seq<Task>)
    ensures var gs, out := Groups(s), Collapse(s);
      && Flatten(gs) == s
      && Homogeneous(gs)
      && Maximal(gs)
      && |out| == |gs|
      && forall k | 0 <= k < |out| ::
           && Equiv(out[k], gs[k][0])
           && out[k].bfn == gs[k][0].bfn && out[k].bfn2 == gs[k][0].bfn2
           && out[k].points == AllPoints(gs[k])
           && out[k].weights == AllWeights(gs[k])
           && out[k].npts == |out[k].points|
  {
    GroupsFlatten(s);
    GroupsHomogeneous(s);
    GroupsMaximal(s);
  }

  lemma {:induction false} MergedPayloads(gs: seq<seq<Task>>)
    requires forall k | 0 <= k < |gs| :: |gs[k]| > 0
    ensures AllPoints(MergeAll(gs)) == AllPoints(Flatten(gs))
    ensures AllWeights(MergeAll(gs)) == AllWeights(Flatten(gs))
    decreases |gs|
  {
    if |gs| > 0 {
      var m := MergeAll(gs);
      assert m == [MergeGroup(gs[0])] + MergeAll(gs[1..]);
      MergedPayloads(gs[1..]);
      AllPointsAppend([MergeGroup(gs[0])], MergeAll(gs[1..]));
      AllWeightsAppend([MergeGroup(gs[0])], MergeAll(gs[1..]));
      AllPointsAppend(gs[0], Flatten(gs[1..]));
      AllWeightsAppend(gs[0], Flatten(gs[1..]));
      assert [MergeGroup(gs[0])][..0] == [];
    } else {
      assert MergeAll(gs) == [];
    }
  }

  /** Collapsing loses and duplicates nothing: the concatenated points and
      weights, hence the total point count, are those of the input. */
  lemma CollapsePreservesPayload(s: seq<Task>)
    ensures AllPoints(Collapse(s)) == AllPoints(s)
    ensures AllWeights(Collapse(s)) == AllWeights(s)
    ensures |AllPoints(Collapse(s))| == |AllPoints(s)|
  {
    MergedPayloads(Groups(s));
    GroupsFlatten(s);
  }

  /** There is one output task per task std::unique retains. */
  lemma CollapseCount(s: seq<Task>)
    ensures |Collapse(s)| == |Unique(s)| == |Groups(s)|
    ensures forall k | 0 <= k < |Collapse(s)| :: Equiv(Collapse(s)[k], Unique(s)[k])
  {
    UniqueIsHeads(s);
  }

  /** No two neighbouring output tasks are equivalent. */
  lemma CollapseNoAdjacentEquiv(s: seq<Task>)
    ensures var out := Collapse(s);
      forall k | 0 <= k < |out| - 1 :: !Equiv(out[k], out[k + 1])
  {
    GroupsMaximal(s);
  }

  lemma {:induction false} HeadsStrictlySorted(s: seq<Task>)
    requires SortedBy(s, TaskLess)
    ensures StrictlySortedBy(Heads(Groups(s)), TaskLess)
    decreases |s|
  {
    if |s| > 1 {
      SortedByTail(s, TaskLess);
      HeadsStrictlySorted(s[1..]);
      HeadsCons(s);
      if Equiv(s[0], s[1]) {
        StrictReplaceHead(s[0], Heads(Groups(s[1..])));
      } else {
        IncomparableIffEquiv(s[0], s[1]);
        StrictCons(s[0], Heads(Groups(s[1..])));
      }
    }
  }

  /** The heads of the groups of `s` from those of `s[1..]`: the first task
      either joins the first group or opens a group of its own. */
  lemma HeadsCons(s: seq<Task>)
    requires |s| > 1
    ensures Heads(Groups(s[1..]))[0] == s[1]
    ensures Equiv(s[0], s[1]) ==> Heads(Groups(s)) == [s[0]] + Heads(Groups(s[1..]))[1..]
    ensures !Equiv(s[0], s[1]) ==> Heads(Groups(s)) == [s[0]] + Heads(Groups(s[1..]))
  {
    var rest := Groups(s[1..]);
    assert rest[0][0] == s[1];
    GroupsUnfold(s);
    if Equiv(s[0], s[1]) {
      HeadsJoin(s[0], rest);
    } else {
      HeadsOpen(s[0], rest);
    }
  }

  /** One step of the definition of the groups. */
  lemma GroupsUnfold(s: seq<Task>)
    requires |s| > 0
    ensures var rest := Groups(s[1..]);
      Groups(s) == if |rest| > 0 && Equiv(s[0], rest[0][0]) then [[s[0]] + rest[0]] + rest[1..] else [[s[0]]] + rest
  {
  }

  /** A task joining the first group leaves the heads after the first alone. */
  lemma HeadsJoin(x: Task, rest: seq<seq<Task>>)
    requires |rest| > 0 && forall k | 0 <= k < |rest| :: |rest[k]| > 0
    ensures Heads([[x] + rest[0]] + rest[1..]) == [x] + Heads(rest)[1..]
  {
    var gs := [[x] + rest[0]] + rest[1..];
    var h, h' := Heads(gs), Heads(rest)[1..];
    forall k | 1 <= k < |h|
      ensures h[k] == h'[k - 1]
    {
      assert gs[k] == rest[k];
    }
  }

  /** A task opening a group of its own becomes the new first head. */
  lemma HeadsOpen(x: Task, rest: seq<seq<Task>>)
    requires forall k | 0 <= k < |rest| :: |rest[k]| > 0
    ensures Heads([[x]] + rest) == [x] + Heads(rest)
  {
    var gs := [[x]] + rest;
    var h, h' := Heads(gs), Heads(rest);
    forall k | 1 <= k < |h|
      ensures h[k] == h'[k - 1]
    {
      assert gs[k] == rest[k - 1];
    }
  }

  lemma StrictReplaceHead(x: Task, h: seq<Task>)
    requires StrictlySortedBy(h, TaskLess) && |h| > 0 && Equiv(x, h[0])
    ensures StrictlySortedBy([x] + h[1..], TaskLess)
  {
    var r := [x] + h[1..];
    forall i, j | 0 <= i < j < |r|
      ensures TaskLess(r[i], r[j])
    {
      assert r[j] == h[j];
      if i > 0 {
        assert r[i] == h[i];
      } else {
        assert TaskLess(h[0], h[j]);
      }
    }
  }

  lemma StrictCons(x: Task, h: seq<Task>)
    requires StrictlySortedBy(h, TaskLess) && |h| > 0 && TaskLess(x, h[0])
    ensures StrictlySortedBy([x] + h, TaskLess)
  {
    var r := [x] + h;
    forall i, j | 0 <= i < j < |r|
      ensures TaskLess(r[i], r[j])
    {
      assert r[j] == h[j - 1];
      if i > 0 {
        assert r[i] == h[i - 1];
      } else if j > 1 {
        TaskLessTransitive(x, h[0], h[j - 1]);
      }
    }
  }

  /** On a list sorted by the canonical order, the collapsed list is
      strictly increasing: sorted by (iParent, shell list), with no two
      entries equivalent anywhere. */
  lemma CollapseOfSortedIsStrict(s: seq<Task>)
    requires SortedBy(s, TaskLess)
    ensures StrictlySortedBy(Collapse(s), TaskLess)
  {
    HeadsStrictlySorted(s);
    var out, h := Collapse(s), Heads(Groups(s));
    forall i, j | 0 <= i < j < |out|
      ensures TaskLess(out[i], out[j])
    {
      assert TaskLess(h[i], h[j]);
      assert Equiv(out[i], h[i]) && Equiv(out[j], h[j]);
    }
  }

  lemma {:induction false} UniqueAfterFrom(kept: Task, s: seq<Task>)
    ensures forall x | x in UniqueAfter(kept, s) :: x in s
    decreases |s|
  {
    if |s| > 0 {
      UniqueAfterFrom(kept, s[1..]);
      UniqueAfterFrom(s[0], s[1..]);
    }
  }

  /** Every output task takes its parent atom and screening from a task of
      the input. */
  lemma CollapseKeysFromInput(s: seq<Task>)
    ensures forall k | 0 <= k < |Collapse(s)| ::
      exists j | 0 <= j < |s| :: Collapse(s)[k].iParent == s[j].iParent && Collapse(s)[k].bfn == s[j].bfn
  {
    UniqueIsHeads(s);
    if |s| > 0 {
      UniqueAfterFrom(s[0], s[1..]);
    }
    var out, u := Collapse(s), Unique(s);
    forall k | 0 <= k < |out|
      ensures exists j | 0 <= j < |s| :: out[k].iParent == s[j].iParent && out[k].bfn == s[j].bfn
    {
      if k > 0 {
        assert u[k] in UniqueAfter(s[0], s[1..]);
        assert u[k] in s[1..];
      }
      assert u[k] in s;
      var j :| 0 <= j < |s| && s[j] == u[k];
      assert out[k].iParent == s[j].iParent && out[k].bfn == s[j].bfn;
    }
  }

  /** Inside group `k`, which starts at `begin`: `lw[i]` still belongs to
      group `k` when the group has not been exhausted yet. */
  lemma ScanInside(lw: seq<Task>, k: nat, begin: nat, i: nat)
    requires begin <= i < |lw| && k < |Groups(lw)|
    requires Flatten(Groups(lw)[..k]) == lw[..begin]
    requires i - begin < |Groups(lw)[k]| && lw[begin..i] == Groups(lw)[k][..i - begin]
    ensures Equiv(lw[i], Groups(lw)[k][0])
    ensures lw[begin..i + 1] == Groups(lw)[k][..i + 1 - begin]
  {
    GroupElem(lw, k, begin, i - begin);
    HomogeneousAt(lw, k, i - begin);
    SliceSnoc(lw, begin, i);
    SliceSnoc(Groups(lw)[k], 0, i - begin);
  }

  lemma GroupElem(s: seq<Task>, k: nat, begin: nat, j: nat)
    requires k < |Groups(s)| && begin <= |s|
    requires Flatten(Groups(s)[..k]) == s[..begin]
    requires j < |Groups(s)[k]|
    ensures begin + j < |s| && s[begin + j] == Groups(s)[k][j]
  {
    GroupAt(s, k, begin);
    assert s[begin..begin + |Groups(s)[k]|][j] == s[begin + j];
  }

  lemma HomogeneousAt(s: seq<Task>, k: nat, j: nat)
    requires k < |Groups(s)| && j < |Groups(s)[k]|
    ensures Equiv(Groups(s)[k][j], Groups(s)[k][0])
  {
    GroupsHomogeneous(s);
  }

  lemma SliceSnoc<T>(s: seq<T>, a: nat, b: nat)
    requires a <= b < |s|
    ensures s[a..b + 1] == s[a..b] + [s[b]]
  {
  }

  /** Group `k`, which starts at `begin`, has been exhausted at `i`: `lw[i]`
      is not equivalent to it and opens group `k + 1`. */
  lemma ScanBoundary(lw: seq<Task>, k: nat, begin: nat, i: nat)
    requires begin <= i < |lw| && k < |Groups(lw)|
    requires Flatten(Groups(lw)[..k]) == lw[..begin]
    requires i - begin == |Groups(lw)[k]| && lw[begin..i] == Groups(lw)[k][..i - begin]
    ensures k + 1 < |Groups(lw)|
    ensures !Equiv(lw[i], Groups(lw)[k][0])
    ensures lw[begin..i] == Groups(lw)[k]
    ensures Flatten(Groups(lw)[..k + 1]) == lw[..i]
    ensures lw[i..i + 1] == Groups(lw)[k + 1][..1]
  {
    var gs := Groups(lw);
    GroupAt(lw, k, begin);
    GroupsMaximal(lw);
    assert lw[i] == gs[k + 1][0];
  }

  /** The state of the merge scan before index `i`: the groups before `cu`
      fill `lw[..begin]` and are merged into their entries, `lw[begin..i]`
      is the part of group `cu` seen so far, and every later entry is still
      the cleared first task of its group. */
  predicate ScanInv(lw: seq<Task>, uniq: seq<Task>, i: nat, begin: nat, cu: nat) {
    var gs := Groups(lw);
    && begin <= i <= |lw| && |uniq| == |gs| && cu <= |gs|
    && Flatten(gs[..cu]) == lw[..begin]
    && (|lw| > 0 ==> cu < |gs| && i - begin <= |gs[cu]| && lw[begin..i] == gs[cu][..i - begin])
    && (forall k | 0 <= k < cu :: uniq[k] == MergeGroup(gs[k]))
    && (forall k | cu <= k < |gs| :: uniq[k] == Cleared(gs[k][0]))
  }

  lemma ScanStart(lw: seq<Task>)
    ensures ScanInv(lw, ClearAll(Unique(lw)), 0, 0, 0)
  {
    UniqueIsHeads(lw);
    assert Groups(lw)[..0] == [];
  }

  /** `lw[i]` is equivalent to entry `cu`: the scan moves on in the same group. */
  lemma ScanWithin(lw: seq<Task>, uniq: seq<Task>, i: nat, begin: nat, cu: nat)
    requires ScanInv(lw, uniq, i, begin, cu) && i < |lw|
    requires cu < |uniq| && Equiv(lw[i], uniq[cu])
    ensures ScanInv(lw, uniq, i + 1, begin, cu)
  {
    var gs := Groups(lw);
    assert Equiv(lw[i], gs[cu][0]);
    if i - begin == |gs[cu]| {
      ScanBoundary(lw, cu, begin, i);
    }
    ScanInside(lw, cu, begin, i);
  }

  /** `lw[i]` is not equivalent to entry `cu`: group `cu` is complete, its
      payload goes into entry `cu`, and `lw[i]` opens group `cu + 1`. */
  lemma ScanAcross(lw: seq<Task>, uniq: seq<Task>, i: nat, begin: nat, cu: nat)
    requires ScanInv(lw, uniq, i, begin, cu) && i < |lw|
    requires !(cu < |uniq| && Equiv(lw[i], uniq[cu]))
    ensures begin <= i && cu < |uniq|
    ensures ScanInv(lw, uniq[cu := MergeWith(uniq[cu], lw[begin..i])], i + 1, i, cu + 1)
  {
    var gs := Groups(lw);
    assert !Equiv(lw[i], gs[cu][0]);
    if i - begin < |gs[cu]| {
      ScanInside(lw, cu, begin, i);
    }
    ScanBoundary(lw, cu, begin, i);
    assert MergeWith(uniq[cu], lw[begin..i]) == MergeGroup(gs[cu]);
  }

  /** At the end of the scan the cursor is on the last group, every group
      before it is merged and the last one is still cleared. */
  lemma ScanEnd(lw: seq<Task>, uniq: seq<Task>, i: nat, begin: nat, cu: nat)
    requires ScanInv(lw, uniq, i, begin, cu) && i >= |lw|
    ensures |uniq| == |Groups(lw)|
    ensures |lw| == 0 ==> cu == 0
    ensures |lw| > 0 ==> cu + 1 == |Groups(lw)| && begin <= |lw| && lw[begin..] == Groups(lw)[cu]
    ensures forall k | 0 <= k < cu :: uniq[k] == MergeGroup(Groups(lw)[k])
    ensures forall k | cu <= k < |Groups(lw)| :: uniq[k] == Cleared(Groups(lw)[k][0])
  {
    if |lw| > 0 {
      GroupAt(lw, cu, begin);
      assert begin + |Groups(lw)[cu]| == i == |lw|;
      assert lw[begin..] == lw[begin..begin + |Groups(lw)[cu]|];
    }
  }

  // ---------------------------------------------------------------------
  // The merge pass as the source writes it (lines 179-216)

  /** The loop at lines 211-212: the tasks from `begin` on are merged one by
      one into entry `cu`. */
  method MergeLastRun(lw: seq<Task>, uniq: seq<Task>, cu: nat, begin: nat) returns (u: seq<Task>)
    requires begin <= |lw| && cu < |uniq|
    requires uniq[cu].npts == |uniq[cu].points|
    ensures |u| == |uniq|
    ensures u[cu] == MergeWith(uniq[cu], lw[begin..])
    ensures forall k | 0 <= k < |u| && k != cu :: u[k] == uniq[k]
  {
    u := uniq;
    var j := begin;
    assert lw[begin..j] == [];
    assert MergeWith(uniq[cu], []) == uniq[cu];
    while j < |lw|
      invariant begin <= j <= |lw|
      invariant |u| == |uniq|
      invariant u[cu] == MergeWith(uniq[cu], lw[begin..j])
      invariant forall k | 0 <= k < |u| && k != cu :: u[k] == uniq[k]
    {
      assert lw[begin..j + 1] == lw[begin..j] + [lw[j]];
      MergeWithTwice(uniq[cu], lw[begin..j], [lw[j]]);
      u := u[cu := MergeWith(u[cu], [lw[j]])];
      j := j + 1;
    }
    assert lw[begin..j] == lw[begin..];
  }

  /** The scan at lines 194-208: the unique list is built and cleared, then
      every run that ends before the last one is merged into its entry. The
      "Messed up in unique" exception is never raised; on exit the cursor
      `cu` is at the last group, which starts at `begin`. */
  method MergeCompletedRuns(lw: seq<Task>) returns (r: Result<seq<Task>, string>, cu: nat, begin: nat)
    ensures r.Success?
    ensures |r.value| == |Groups(lw)|
    ensures |lw| == 0 ==> cu == 0
    ensures |lw| > 0 ==> cu + 1 == |Groups(lw)| && begin <= |lw| && lw[begin..] == Groups(lw)[cu]
    ensures forall k | 0 <= k < cu :: r.value[k] == MergeGroup(Groups(lw)[k])
    ensures forall k | cu <= k < |Groups(lw)| :: r.value[k] == Cleared(Groups(lw)[k][0])
  {
    var uniq := ClearAll(Unique(lw));
    var i := 0;
    begin, cu := 0, 0;
    ScanStart(lw);
    while i < |lw|
      invariant ScanInv(lw, uniq, i, begin, cu)
    {
      var equiv := cu < |uniq| && Equiv(lw[i], uniq[cu]);
      if !equiv {
        ScanAcross(lw, uniq, i, begin, cu);
        if cu == |uniq| {
          assert false;
          return Failure("Messed up in unique"), cu, begin;
        }
        uniq := uniq[cu := MergeWith(uniq[cu], lw[begin..i])];
        begin := i;
        cu := cu + 1;
      } else {
        ScanWithin(lw, uniq, i, begin, cu);
      }
      i := i + 1;
    }
    ScanEnd(lw, uniq, i, begin, cu);
    r := Success(uniq);
  }

  /** The reconciliation pass of lines 174-216: collapses equivalent
      neighbours and merges their payloads into the first task of each run. */
  method UniqueAndMerge(lw: seq<Task>) returns (r: Result<seq<Task>, string>)
    ensures r == Success(Collapse(lw))
  {
    ghost var gs := Groups(lw);
    var scan, cu, begin := MergeCompletedRuns(lw);
    var uniq := scan.value;
    if |lw| > 0 {
      ghost var before := uniq;
      uniq := MergeLastRun(lw, uniq, cu, begin);
      assert uniq[cu] == MergeGroup(gs[cu]);
      forall k | 0 <= k < |gs|
        ensures uniq[k] == MergeGroup(gs[k])
      {
        if k != cu {
          assert uniq[k] == before[k];
        }
      }
    }
    ghost var expected := Collapse(lw);
    assert |uniq| == |expected|;
    assert forall k | 0 <= k < |uniq| :: uniq[k] == expected[k];
    assert uniq == expected;
    return Success(uniq);
  }
}
