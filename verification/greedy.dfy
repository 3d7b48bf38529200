/** The workload ledger of the greedy least-loaded assignment: one
    cumulative cost per rank, each task charged to the first rank holding
    the minimum. */
module Greedy {

  /** The index std::min_element returns: a smallest entry, the first one
      among ties. */
  function FirstMin(ledger: seq<nat>): (k: nat)
    requires |ledger| > 0
    ensures k < |ledger|
    ensures forall j | 0 <= j < |ledger| :: ledger[k] <= ledger[j]
    ensures forall j | 0 <= j < k :: ledger[k] < ledger[j]
    decreases |ledger|
  {
    if |ledger| == 1 then 0
    else
      var k := FirstMin(ledger[..|ledger| - 1]);
      if ledger[|ledger| - 1] < ledger[k] then |ledger| - 1 else k
  }

  /** Charges `c` to the first least-loaded rank. */
  function Charge(ledger: seq<nat>, c: nat): (l: seq<nat>)
    requires |ledger| > 0
    ensures |l| == |ledger|
  {
    var k := FirstMin(ledger);
    ledger[k := ledger[k] + c]
  }

  /** The ledger after charging `costs` one after the other. */
  function Ledger(l0: seq<nat>, costs: seq<nat>): (l: seq<nat>)
    requires |l0| > 0
    ensures |l| == |l0|
    decreases |costs|
  {
    if |costs| == 0 then l0
    else Charge(Ledger(l0, costs[..|costs| - 1]), costs[|costs| - 1])
  }

  /** The rank each of `costs` is charged to, in order. */
  function Owners(l0: seq<nat>, costs: seq<nat>): (o: seq<nat>)
    requires |l0| > 0
    ensures |o| == |costs|
    ensures forall i | 0 <= i < |o| :: o[i] < |l0|
    decreases |costs|
  {
    if |costs| == 0 then []
    else
      var prev := costs[..|costs| - 1];
      Owners(l0, prev) + [FirstMin(Ledger(l0, prev))]
  }

  lemma {:induction false} OwnersPrefix(l0: seq<nat>, costs: seq<nat>, i: nat)
    requires |l0| > 0 && i <= |costs|
    ensures Owners(l0, costs)[..i] == Owners(l0, costs[..i])
    decreases |costs|
  {
    if i < |costs| {
      var prev := costs[..|costs| - 1];
      OwnersPrefix(l0, prev, i);
      assert prev[..i] == costs[..i];
      assert Owners(l0, costs)[..|costs| - 1] == Owners(l0, prev);
    } else {
      assert costs[..i] == costs;
    }
  }

  /** One step of the pass: task `i` goes to the first rank holding the
      minimum of the ledger as it stood, that entry grows by the task's
      cost, and every other entry is unchanged. */
  lemma AssignmentStep(l0: seq<nat>, costs: seq<nat>, i: nat)
    requires |l0| > 0 && i < |costs|
    ensures var before, after, o := Ledger(l0, costs[..i]), Ledger(l0, costs[..i + 1]), Owners(l0, costs)[i];
      && o < |l0|
      && (forall j | 0 <= j < |l0| :: before[o] <= before[j])
      && (forall j | 0 <= j < o :: before[o] < before[j])
      && after[o] == before[o] + costs[i]
      && (forall j | 0 <= j < |l0| && j != o :: after[j] == before[j])
  {
    var c := costs[..i + 1];
    assert c[..i] == costs[..i];
    assert c[..|c| - 1] == costs[..i];
    OwnersPrefix(l0, costs, i + 1);
    assert Owners(l0, costs)[i] == Owners(l0, c)[i];
    assert Owners(l0, c)[i] == FirstMin(Ledger(l0, costs[..i]));
    assert Ledger(l0, c) == Charge(Ledger(l0, costs[..i]), costs[i]);
  }

  /** No ledger entry ever decreases. */
  lemma {:induction false} LedgerMonotone(l0: seq<nat>, costs: seq<nat>)
    requires |l0| > 0
    ensures forall j | 0 <= j < |l0| :: l0[j] <= Ledger(l0, costs)[j]
    decreases |costs|
  {
    if |costs| > 0 {
      LedgerMonotone(l0, costs[..|costs| - 1]);
    }
  }

  /** Sum of a sequence of naturals. */
  function SumNat(s: seq<nat>): nat
    decreases |s|
  {
    if |s| == 0 then 0 else SumNat(s[..|s| - 1]) + s[|s| - 1]
  }

  lemma {:induction false} SumNatUpdate(s: seq<nat>, k: nat, c: nat)
    requires k < |s|
    ensures SumNat(s[k := s[k] + c]) == SumNat(s) + c
    decreases |s|
  {
    var s' := s[k := s[k] + c];
    if k < |s| - 1 {
      assert s'[..|s| - 1] == s[..|s| - 1][k := s[k] + c];
      SumNatUpdate(s[..|s| - 1], k, c);
    } else {
      assert s'[..|s| - 1] == s[..|s| - 1];
    }
  }

  /** The ledger's total is the initial total plus every charged cost. */
  lemma {:induction false} LedgerTotal(l0: seq<nat>, costs: seq<nat>)
    requires |l0| > 0
    ensures SumNat(Ledger(l0, costs)) == SumNat(l0) + SumNat(costs)
    decreases |costs|
  {
    if |costs| > 0 {
      var prev := costs[..|costs| - 1];
      LedgerTotal(l0, prev);
      var l := Ledger(l0, prev);
      SumNatUpdate(l, FirstMin(l), costs[|costs| - 1]);
    }
  }

  /** Charging two cost streams one after the other is charging their concatenation. */
  lemma {:induction false} LedgerAppend(l0: seq<nat>, a: seq<nat>, b: seq<nat>)
    requires |l0| > 0
    ensures Ledger(l0, a + b) == Ledger(Ledger(l0, a), b)
    decreases |b|
  {
    if |b| == 0 {
      assert a + b == a;
    } else {
      var b' := b[..|b| - 1];
      assert (a + b)[..|a + b| - 1] == a + b';
      LedgerAppend(l0, a, b');
    }
  }

  /** The ranks chosen for a concatenated stream are those chosen for the
      first part followed by those chosen for the second part starting from
      the ledger the first part left. */
  lemma {:induction false} OwnersAppend(l0: seq<nat>, a: seq<nat>, b: seq<nat>)
    requires |l0| > 0
    ensures Owners(l0, a + b) == Owners(l0, a) + Owners(Ledger(l0, a), b)
    decreases |b|
  {
    if |b| == 0 {
      assert a + b == a;
    } else {
      var b' := b[..|b| - 1];
      assert (a + b)[..|a + b| - 1] == a + b';
      OwnersAppend(l0, a, b');
      LedgerAppend(l0, a, b');
    }
  }

  /** Every entry is within `bound` of every other: max - min <= bound. */
  predicate Balanced(l: seq<nat>, bound: nat) {
    forall i, j | 0 <= i < |l| && 0 <= j < |l| :: l[i] <= l[j] + bound
  }

  lemma ChargeBalanced(l: seq<nat>, c: nat, bound: nat)
    requires |l| > 0 && Balanced(l, bound) && c <= bound
    ensures Balanced(Charge(l, c), bound)
  {
    var k := FirstMin(l);
    var l' := Charge(l, c);
    forall i, j | 0 <= i < |l'| && 0 <= j < |l'|
      ensures l'[i] <= l'[j] + bound
    {
      if i == k && j != k {
        assert l[k] <= l[j];
      } else if j == k && i != k {
        assert l[i] <= l[k] + bound;
      }
    }
  }

  /** Greedy least-loaded assignment keeps the spread between the most and
      the least loaded rank within the largest single cost. */
  lemma {:induction false} LedgerBalanced(l0: seq<nat>, costs: seq<nat>, bound: nat)
    requires |l0| > 0 && Balanced(l0, bound)
    requires forall i | 0 <= i < |costs| :: costs[i] <= bound
    ensures Balanced(Ledger(l0, costs), bound)
    decreases |costs|
  {
    if |costs| > 0 {
      var prev := costs[..|costs| - 1];
      LedgerBalanced(l0, prev, bound);
      ChargeBalanced(Ledger(l0, prev), costs[|costs| - 1], bound);
    }
  }

  /** The elements of `ts` whose owner is `rank`, in order. */
  function KeepFor<T>(ts: seq<T>, owners: seq<nat>, rank: nat): (kept: seq<T>)
    requires |ts| == |owners|
    ensures |kept| <= |ts|
    decreases |ts|
  {
    if |ts| == 0 then []
    else
      var n := |ts| - 1;
      KeepFor(ts[..n], owners[..n], rank) + (if owners[n] == rank then [ts[n]] else [])
  }

  /** A rank keeps only tasks of the stream. */
  lemma {:induction false} KeepForSubset<T>(ts: seq<T>, owners: seq<nat>, rank: nat)
    requires |ts| == |owners|
    ensures forall x | x in KeepFor(ts, owners, rank) :: x in ts
    decreases |ts|
  {
    if |ts| > 0 {
      var n := |ts| - 1;
      KeepForSubset(ts[..n], owners[..n], rank);
      assert forall x | x in ts[..n] :: x in ts;
    }
  }

  /** A task is kept by `rank` exactly when some position holding it is
      owned by `rank`. */
  lemma {:induction false} KeepForMembers<T>(ts: seq<T>, owners: seq<nat>, rank: nat, x: T)
    requires |ts| == |owners|
    ensures x in KeepFor(ts, owners, rank) <==> exists i | 0 <= i < |ts| :: ts[i] == x && owners[i] == rank
    decreases |ts|
  {
    if |ts| > 0 {
      var n := |ts| - 1;
      KeepForMembers(ts[..n], owners[..n], rank, x);
      if x in KeepFor(ts[..n], owners[..n], rank) {
        var i :| 0 <= i < n && ts[..n][i] == x && owners[..n][i] == rank;
        assert ts[i] == x && owners[i] == rank;
      }
      if exists i | 0 <= i < |ts| :: ts[i] == x && owners[i] == rank {
        var i :| 0 <= i < |ts| && ts[i] == x && owners[i] == rank;
        if i < n {
          assert ts[..n][i] == x && owners[..n][i] == rank;
        }
      }
    }
  }

  /** The multiset union of what ranks 0 .. n-1 keep. */
  function RankUnion<T>(ts: seq<T>, owners: seq<nat>, n: nat): multiset<T>
    requires |ts| == |owners|
    decreases n
  {
    if n == 0 then multiset{} else RankUnion(ts, owners, n - 1) + multiset(KeepFor(ts, owners, n - 1))
  }

  /** The tasks whose owner is below `n`, as a multiset. */
  function Below<T>(ts: seq<T>, owners: seq<nat>, n: nat): multiset<T>
    requires |ts| == |owners|
    decreases |ts|
  {
    if |ts| == 0 then multiset{}
    else
      var m := |ts| - 1;
      Below(ts[..m], owners[..m], n) + (if owners[m] < n then multiset{ts[m]} else multiset{})
  }

  lemma Swap4<T>(a: multiset<T>, b: multiset<T>, c: multiset<T>, d: multiset<T>)
    ensures (a + b) + (c + d) == (a + c) + (b + d)
  {
  }

  /** Raising the bound from `n - 1` to `n` adds exactly what rank `n - 1` keeps. */
  lemma {:induction false} BelowStep<T>(ts: seq<T>, owners: seq<nat>, n: nat)
    requires |ts| == |owners| && n > 0
    ensures Below(ts, owners, n) == Below(ts, owners, n - 1) + multiset(KeepFor(ts, owners, n - 1))
    decreases |ts|
  {
    if |ts| > 0 {
      var m := |ts| - 1;
      BelowStep(ts[..m], owners[..m], n);
      BelowUnfold(ts, owners, n);
      BelowUnfold(ts, owners, n - 1);
      KeepForUnfold(ts, owners, n - 1);
      OwnedSplit(ts[m], owners[m], n);
      StepAlgebra(Below(ts, owners, n), Below(ts[..m], owners[..m], n),
        if owners[m] < n then multiset{ts[m]} else multiset{},
        Below(ts[..m], owners[..m], n - 1), if owners[m] < n - 1 then multiset{ts[m]} else multiset{},
        multiset(KeepFor(ts[..m], owners[..m], n - 1)), multiset(if owners[m] == n - 1 then [ts[m]] else []),
        Below(ts, owners, n - 1), multiset(KeepFor(ts, owners, n - 1)));
    }
  }

  lemma BelowUnfold<T>(ts: seq<T>, owners: seq<nat>, n: nat)
    requires |ts| == |owners| && |ts| > 0
    ensures Below(ts, owners, n)
      == Below(ts[..|ts| - 1], owners[..|ts| - 1], n) + (if owners[|ts| - 1] < n then multiset{ts[|ts| - 1]} else multiset{})
  {
  }

  lemma KeepForUnfold<T>(ts: seq<T>, owners: seq<nat>, r: nat)
    requires |ts| == |owners| && |ts| > 0
    ensures multiset(KeepFor(ts, owners, r))
      == multiset(KeepFor(ts[..|ts| - 1], owners[..|ts| - 1], r)) + multiset(if owners[|ts| - 1] == r then [ts[|ts| - 1]] else [])
  {
  }

  lemma StepAlgebra<T>(s: multiset<T>, p: multiset<T>, e: multiset<T>, a: multiset<T>, b: multiset<T>,
                       c: multiset<T>, d: multiset<T>, below: multiset<T>, kept: multiset<T>)
    requires s == p + e && p == a + c && e == b + d
    requires below == a + b && kept == c + d
    ensures s == below + kept
  {
    Swap4(a, c, b, d);
  }

  /** Owned below `n` is owned below `n - 1` or owned by `n - 1`. */
  lemma OwnedSplit<T>(x: T, owner: nat, n: nat)
    requires n > 0
    ensures (if owner < n then multiset{x} else multiset{})
      == (if owner < n - 1 then multiset{x} else multiset{}) + multiset(if owner == n - 1 then [x] else [])
  {
  }


  /** The union over ranks 0 .. n-1 is the multiset of tasks owned below `n`. */
  lemma RankUnionIsBelow<T>(ts: seq<T>, owners: seq<nat>, n: nat)
    requires |ts| == |owners|
    ensures RankUnion(ts, owners, n) == Below(ts, owners, n)
  {
    BelowNone(ts, owners);
    var k := 0;
    while k < n
      invariant k <= n
      invariant RankUnion(ts, owners, k) == Below(ts, owners, k)
    {
      k := k + 1;
      RankUnionIsBelowStep(ts, owners, k);
    }
  }

  lemma RankUnionIsBelowStep<T>(ts: seq<T>, owners: seq<nat>, n: nat)
    requires |ts| == |owners| && n > 0
    requires RankUnion(ts, owners, n - 1) == Below(ts, owners, n - 1)
    ensures RankUnion(ts, owners, n) == Below(ts, owners, n)
  {
    BelowStep(ts, owners, n);
    RankUnionUnfold(ts, owners, n);
    Rewrite(RankUnion(ts, owners, n), RankUnion(ts, owners, n - 1), Below(ts, owners, n - 1),
            multiset(KeepFor(ts, owners, n - 1)), Below(ts, owners, n));
  }

  lemma RankUnionUnfold<T>(ts: seq<T>, owners: seq<nat>, n: nat)
    requires |ts| == |owners| && n > 0
    ensures RankUnion(ts, owners, n) == RankUnion(ts, owners, n - 1) + multiset(KeepFor(ts, owners, n - 1))
  {
  }

  /** Substituting equals in a sum. */
  lemma Rewrite<T>(a: multiset<T>, b: multiset<T>, c: multiset<T>, k: multiset<T>, d: multiset<T>)
    requires a == b + k && b == c && d == c + k
    ensures a == d
  {
  }

  lemma {:induction false} BelowNone<T>(ts: seq<T>, owners: seq<nat>)
    requires |ts| == |owners|
    ensures Below(ts, owners, 0) == multiset{}
    decreases |ts|
  {
    if |ts| > 0 {
      BelowNone(ts[..|ts| - 1], owners[..|ts| - 1]);
    }
  }

  lemma {:induction false} BelowAll<T>(ts: seq<T>, owners: seq<nat>, n: nat)
    requires |ts| == |owners|
    requires forall i | 0 <= i < |owners| :: owners[i] < n
    ensures Below(ts, owners, n) == multiset(ts)
    decreases |ts|
  {
    if |ts| > 0 {
      var m := |ts| - 1;
      assert forall i | 0 <= i < m :: owners[..m][i] < n by {
        forall i | 0 <= i < m ensures owners[..m][i] < n {
          assert owners[..m][i] == owners[i];
        }
      }
      BelowAll(ts[..m], owners[..m], n);
      BelowUnfold(ts, owners, n);
      MultisetSnoc(ts);
      Rewrite(Below(ts, owners, n), Below(ts[..m], owners[..m], n), multiset(ts[..m]), multiset{ts[m]}, multiset(ts));
    }
  }

  lemma MultisetSnoc<T>(s: seq<T>)
    requires |s| > 0
    ensures multiset(s) == multiset(s[..|s| - 1]) + multiset{s[|s| - 1]}
  {
    assert s == s[..|s| - 1] + [s[|s| - 1]];
  }

  /** Over all ranks the kept lists partition the tasks: every task is kept
      by exactly one rank, as often as it occurs. */
  lemma KeepForPartitions<T>(ts: seq<T>, owners: seq<nat>, n: nat)
    requires |ts| == |owners|
    requires forall i | 0 <= i < |owners| :: owners[i] < n
    ensures RankUnion(ts, owners, n) == multiset(ts)
  {
    RankUnionIsBelow(ts, owners, n);
    BelowAll(ts, owners, n);
  }

  /** Keeping distributes over concatenation of task streams. */
  lemma {:induction false} KeepForAppend<T>(a: seq<T>, oa: seq<nat>, b: seq<T>, ob: seq<nat>, rank: nat)
    requires |a| == |oa| && |b| == |ob|
    ensures KeepFor(a + b, oa + ob, rank) == KeepFor(a, oa, rank) + KeepFor(b, ob, rank)
    decreases |b|
  {
    if |b| == 0 {
      assert a + b == a && oa + ob == oa;
    } else {
      var m := |b| - 1;
      assert (a + b)[..|a| + m] == a + b[..m];
      assert (oa + ob)[..|a| + m] == oa + ob[..m];
      KeepForAppend(a, oa, b[..m], ob[..m], rank);
    }
  }

  /** The lists ranks 0 .. n-1 keep, one after the other. */
  function KeptByRanks<T>(ts: seq<T>, owners: seq<nat>, n: nat): seq<T>
    requires |ts| == |owners|
    decreases n
  {
    if n == 0 then [] else KeptByRanks(ts, owners, n - 1) + KeepFor(ts, owners, n - 1)
  }

  /** Laying the kept lists end to end holds the same tasks as their
      multiset union. */
  lemma {:induction false} KeptByRanksUnion<T>(ts: seq<T>, owners: seq<nat>, n: nat)
    requires |ts| == |owners|
    ensures multiset(KeptByRanks(ts, owners, n)) == RankUnion(ts, owners, n)
  {
    var k := 0;
    while k < n
      invariant k <= n
      invariant multiset(KeptByRanks(ts, owners, k)) == RankUnion(ts, owners, k)
    {
      k := k + 1;
      KeptByRanksStep(ts, owners, k);
    }
  }

  lemma KeptByRanksStep<T>(ts: seq<T>, owners: seq<nat>, n: nat)
    requires |ts| == |owners| && n > 0
    requires multiset(KeptByRanks(ts, owners, n - 1)) == RankUnion(ts, owners, n - 1)
    ensures multiset(KeptByRanks(ts, owners, n)) == RankUnion(ts, owners, n)
  {
    RankUnionUnfold(ts, owners, n);
    assert KeptByRanks(ts, owners, n) == KeptByRanks(ts, owners, n - 1) + KeepFor(ts, owners, n - 1);
  }
}
