/** Padding a task's point list to a multiple of the pad value with
    zero-weight copies of its first point. */
module Padding {
  import opened XCTask

  /** `n` copies of `x`. */
  function Repeat<T>(x: T, n: nat): (r: seq<T>)
    ensures |r| == n
    ensures forall i | 0 <= i < n :: r[i] == x
    decreases n
  {
    if n == 0 then [] else Repeat(x, n - 1) + [x]
  }

  /** The number of padding entries the balancer appends to `n` points:
      none when `n` is already a multiple of `pad`, else `pad - n % pad`. */
  function PadCount(n: nat, pad: nat): (k: nat)
    requires pad > 0
    ensures (n + k) % pad == 0
    ensures k < pad
    ensures k == 0 <==> n % pad == 0
  {
    if n % pad == 0 then 0
    else
      RoundUpIsMultiple(n, pad);
      pad - n % pad
  }

  /** Pads `t` so its point count is a multiple of `pad` with zero-weight
      copies of its first point. */
  function PadTask(t: Task, pad: nat): Task
    requires pad > 0
  {
    if |t.points| % pad == 0 then t
    else
      var pts := PadPoints(t.points, pad);
      t.(points := pts, weights := PadWeights(t.weights, |t.points|, pad), npts := |pts|)
  }

  /** What padding does to a task: the point count becomes the next multiple
      of `pad`, the original points and weights stay in front, the appended
      points copy the first point and carry zero weight, fewer than `pad`
      entries are added, and a task already at a multiple is unchanged. */
  lemma PadTaskSpec(t: Task, pad: nat)
    requires pad > 0
    ensures var r := PadTask(t, pad);
      && |r.points| % pad == 0
      && |t.points| <= |r.points| < |t.points| + pad
      && r.points[..|t.points|] == t.points
      && (|t.points| > 0 ==> forall i | |t.points| <= i < |r.points| :: r.points[i] == t.points[0])
      && |r.weights| == |t.weights| + (|r.points| - |t.points|)
      && r.weights[..|t.weights|] == t.weights
      && (forall i | |t.weights| <= i < |r.weights| :: r.weights[i] == 0.0)
      && (|t.points| % pad == 0 ==> r == t)
      && (t.npts == |t.points| ==> r.npts == |r.points|)
      && (|t.weights| == |t.points| ==> |r.weights| == |r.points|)
      && r.iParent == t.iParent && r.bfn == t.bfn && r.bfn2 == t.bfn2 && r.distNearest == t.distNearest
  {
  }

  /** The point list padded with copies of its first point. */
  function PadPoints(pts: seq<Point>, pad: nat): (r: seq<Point>)
    requires pad > 0
    ensures |r| == |pts| + PadCount(|pts|, pad)
    ensures r[..|pts|] == pts
    ensures |pts| > 0 ==> forall i | |pts| <= i < |r| :: r[i] == pts[0]
  {
    var k := PadCount(|pts|, pad);
    if k == 0 then pts else Extend(pts, pts[0], k)
  }

  /** The weight list of a task with `n` points, padded with zeros. */
  function PadWeights(ws: seq<real>, n: nat, pad: nat): (r: seq<real>)
    requires pad > 0
    ensures |r| == |ws| + PadCount(n, pad)
    ensures r[..|ws|] == ws
    ensures forall i | |ws| <= i < |r| :: r[i] == 0.0
  {
    Extend(ws, 0.0, PadCount(n, pad))
  }

  /** `s` followed by `k` copies of `x`. */
  function Extend<T>(s: seq<T>, x: T, k: nat): (r: seq<T>)
    ensures |r| == |s| + k
    ensures r[..|s|] == s
    ensures forall i | |s| <= i < |r| :: r[i] == x
  {
    var r := s + Repeat(x, k);
    assert r[..|s|] == s;
    r
  }

  lemma {:induction false} MulAtLeast(a: int, p: int)
    requires a >= 1 && p > 0
    ensures a * p >= p
    decreases a
  {
    if a > 1 {
      MulAtLeast(a - 1, p);
      assert a * p == (a - 1) * p + p;
    }
  }

  /** Euclidean division is unique: quotient and remainder are determined. */
  lemma DivModUnique(x: int, q: int, r: int, p: int)
    requires p > 0 && 0 <= r < p && x == q * p + r
    ensures x % p == r && x / p == q
  {
    var q', r' := x / p, x % p;
    assert x == q' * p + r';
    if q' > q {
      assert (q' - q) * p == r - r';
      MulAtLeast(q' - q, p);
      assert false;
    } else if q' < q {
      assert (q - q') * p == r' - r;
      MulAtLeast(q - q', p);
      assert false;
    }
  }

  /** Adding `pad - n % pad` to `n` reaches the next multiple of `pad`. */
  lemma RoundUpIsMultiple(n: nat, pad: nat)
    requires pad > 0
    ensures 0 < pad - n % pad <= pad
    ensures n % pad != 0 ==> pad - n % pad < pad
    ensures (n + (pad - n % pad)) % pad == 0
  {
    var q := n / pad;
    assert n == q * pad + n % pad;
    assert (q + 1) * pad == q * pad + pad;
    DivModUnique(n + (pad - n % pad), q + 1, 0, pad);
  }

  /** Sum of a weight sequence. */
  function Sum(ws: seq<real>): real
    decreases |ws|
  {
    if |ws| == 0 then 0.0 else Sum(ws[..|ws| - 1]) + ws[|ws| - 1]
  }

  lemma {:induction false} SumZeros(ws: seq<real>, n: nat)
    ensures Sum(ws + Repeat(0.0, n)) == Sum(ws)
    decreases n
  {
    if n == 0 {
      assert ws + Repeat(0.0, n) == ws;
    } else {
      var s := ws + Repeat(0.0, n);
      assert s[..|s| - 1] == ws + Repeat(0.0, n - 1);
      SumZeros(ws, n - 1);
    }
  }

  /** Padding adds only zero weights, so the quadrature sum is unchanged. */
  lemma PadPreservesWeightSum(t: Task, pad: nat)
    requires pad > 0
    ensures Sum(PadTask(t, pad).weights) == Sum(t.weights)
  {
    SumZeros(t.weights, PadCount(|t.points|, pad));
  }
}
