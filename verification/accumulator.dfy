/** `D8Accumulator`: the object that holds a D8 direction raster, the
    receiver array resolved from it, the baselevel nodes and the queue order,
    and answers accumulation, channel-segment and profile queries on them.

    A raster is a 2-D array of direction codes in row-major order; the
    GDAL dataset that may come with it is reduced to whether it exists, and
    its geotransform to the step lengths the profile query needs. */
module Accumulator {
  import opened Wrappers
  import opened Grid
  import opened Drainage
  import opened D8
  import opened Donors
  import opened Ordering
  import opened Sums
  import opened Accumulation
  import opened Upstream

  /** A numpy array: its shape and its entries, flattened in row-major order. */
  datatype Array<T> = Array(dims: seq<nat>, data: seq<T>)

  /** A 2-D array holds one entry per cell. */
  predicate Consistent<T>(a: Array<T>) {
    |a.dims| == 2 ==> |a.data| == a.dims[0] * a.dims[1]
  }

  datatype D8Accumulator = D8Accumulator(
    shape: Shape,
    arr: seq<int>,
    hasDataset: bool,
    receivers: seq<nat>,
    baselevel: seq<nat>,
    order: seq<nat>)

  /** What the queue order promises about `r`: no node twice, the
      baselevel nodes first and ascending, every node after its receiver,
      and exactly the nodes that reach a baselevel node. */
  predicate OrderOf(r: seq<nat>, order: seq<nat>)
    requires ValidReceivers(r)
  {
    && Distinct(order) && Nodes(order, |r|)
    && |BaselevelNodes(r)| <= |order| && order[..|BaselevelNodes(r)|] == BaselevelNodes(r)
    && TopoOrdered(r, order)
    && forall m :: 0 <= m < |r| ==> (m in order <==> Drains(r, m))
  }

  /** The derived attributes agree with the raster. */
  predicate Valid(acc: D8Accumulator) {
    && |acc.arr| == acc.shape.Size()
    && D8ToReceivers(acc.shape, acc.arr) == Ok(acc.receivers)
    && ValidReceivers(acc.receivers)
    && acc.baselevel == BaselevelNodes(acc.receivers)
    && OrderOf(acc.receivers, acc.order)
  }

  /** The part `__init__`, `from_array` and the `arr` setter share: resolve
      the receivers, select the baselevel nodes, build the order. It fails
      exactly when the raster holds an unusable code. */
  method Build(s: Shape, codes: seq<int>, hasDataset: bool) returns (r: Result<D8Accumulator>)
    requires |codes| == s.Size()
    ensures r.Ok? <==> forall n :: 0 <= n < s.Size() ==> ValidCodeAt(s, codes, n)
    ensures r.Err? ==> r.error == ValueError
    ensures r.Ok? ==> Valid(r.value) && r.value.shape == s && r.value.arr == codes
    ensures r.Ok? ==> r.value.hasDataset == hasDataset
    ensures r.Ok? && Forest(r.value.receivers) ==> |r.value.order| == s.Size()
  {
    var receivers := D8ToReceivers(s, codes);
    if receivers.Err? {
      return Err(ValueError);
    }
    var rec := receivers.value;
    var order := BuildOrder(rec);
    r := Ok(D8Accumulator(s, codes, hasDataset, rec, BaselevelNodes(rec), order));
  }

  /** `__init__`: the raster read from a file (a GDAL band is always 2-D)
      comes with its dataset. */
  method Open(raster: Array<int>) returns (r: Result<D8Accumulator>)
    requires |raster.dims| == 2 && Consistent(raster)
    ensures r.Ok? <==> forall n :: 0 <= n < |raster.data| ==>
      ValidCodeAt(Shape(raster.dims[0], raster.dims[1]), raster.data, n)
    ensures r.Ok? ==> Valid(r.value) && r.value.hasDataset && r.value.arr == raster.data
    ensures r.Ok? ==> r.value.shape == Shape(raster.dims[0], raster.dims[1])
  {
    r := Build(Shape(raster.dims[0], raster.dims[1]), raster.data, true);
  }

  /** `from_array`: a ValueError unless the array is 2-D; the accumulator
      built from it has no dataset. */
  method FromArray(a: Array<int>) returns (r: Result<D8Accumulator>)
    requires Consistent(a)
    ensures |a.dims| != 2 ==> r == Err(ValueError)
    ensures r.Ok? <==> |a.dims| == 2 && forall n :: 0 <= n < |a.data| ==>
      ValidCodeAt(Shape(a.dims[0], a.dims[1]), a.data, n)
    ensures r.Ok? ==> Valid(r.value) && !r.value.hasDataset && r.value.arr == a.data
    ensures r.Ok? ==> r.value.shape == Shape(a.dims[0], a.dims[1])
  {
    if |a.dims| != 2 {
      return Err(ValueError);
    }
    r := Build(Shape(a.dims[0], a.dims[1]), a.data, false);
  }

  /** The `arr` setter. A non-2-D array is refused before anything changes.
      Otherwise the array is stored and the dataset dropped first, and only
      then are the receivers resolved: an unusable code raises after the
      raster was replaced, leaving the old receivers and order behind. */
  method SetArr(acc: D8Accumulator, a: Array<int>) returns (next: D8Accumulator, err: Option<Error>)
    requires Consistent(a)
    ensures |a.dims| != 2 ==> err == Some(ValueError) && next == acc
    ensures err.None? <==> |a.dims| == 2 && forall n :: 0 <= n < |a.data| ==>
      ValidCodeAt(Shape(a.dims[0], a.dims[1]), a.data, n)
    ensures |a.dims| == 2 ==> next.arr == a.data && next.shape == Shape(a.dims[0], a.dims[1]) && !next.hasDataset
    ensures err.None? ==> Valid(next)
    ensures err.Some? ==> err == Some(ValueError) && next.receivers == acc.receivers && next.order == acc.order
  {
    if |a.dims| != 2 {
      return acc, Some(ValueError);
    }
    var s := Shape(a.dims[0], a.dims[1]);
    next := acc.(shape := s, arr := a.data, hasDataset := false);
    var built := Build(s, a.data, false);
    if built.Err? {
      return next, Some(ValueError);
    }
    next, err := built.value, None;
  }

  /** The weights `accumulate` uses: the given ones, or 1 at every node. */
  function WeightsOf(weights: Option<Array<real>>, n: nat): (w: seq<real>)
    requires weights.Some? ==> |weights.value.data| == n
    ensures |w| == n
    ensures weights.None? ==> forall m :: 0 <= m < n ==> w[m] == 1.0
    ensures weights.Some? ==> w == weights.value.data
  {
    if weights.None? then seq(n, _ => 1.0) else weights.value.data
  }

  /** `accumulate`: weights of another shape are refused with a ValueError
      before any computation. Otherwise the result has the raster's shape
      and each node gets the sum of the weights over its upstream set (the
      number of nodes in it when no weights are given), and the values at
      the baselevel nodes add up to the total weight, provided no flow
      circulates. */
  method Accumulate(acc: D8Accumulator, weights: Option<Array<real>>) returns (r: Result<Array<real>>)
    requires Valid(acc)
    requires weights.Some? ==> Consistent(weights.value)
    ensures r.Err? <==> weights.Some? && weights.value.dims != [acc.shape.rows, acc.shape.cols]
    ensures r.Err? ==> r.error == ValueError
    ensures r.Ok? ==> r.value.dims == [acc.shape.rows, acc.shape.cols] && |r.value.data| == |acc.receivers|
    ensures r.Ok? ==> forall x :: 0 <= x < |acc.receivers| ==>
      r.value.data[x] == SumWhere(WeightsOf(weights, |acc.receivers|), OrderedSel(acc.receivers, acc.order, x), |acc.receivers|)
    ensures r.Ok? && Forest(acc.receivers) ==> forall x :: 0 <= x < |acc.receivers| ==>
      r.value.data[x] == UpstreamSum(acc.receivers, WeightsOf(weights, |acc.receivers|), x)
    ensures r.Ok? && Forest(acc.receivers) && weights.None? ==> forall x :: 0 <= x < |acc.receivers| ==>
      r.value.data[x] == |UpstreamNodes(acc.receivers, x)| as real
    ensures r.Ok? && Forest(acc.receivers) ==>
      SumWhere(r.value.data, BaseSel(acc.receivers), |acc.receivers|) == Total(WeightsOf(weights, |acc.receivers|), |acc.receivers|)
  {
    var n := |acc.receivers|;
    if weights.Some? && weights.value.dims != [acc.shape.rows, acc.shape.cols] {
      return Err(ValueError);
    }
    var w := WeightsOf(weights, n);
    if Forest(acc.receivers) {
      DistinctBounded(acc.order, n);
    }
    var data := AccumulateFlow(acc.receivers, acc.order, w);
    r := Ok(Array([acc.shape.rows, acc.shape.cols], data));
    if Forest(acc.receivers) {
      AccumulateMeaning(acc.receivers, w, data, weights.None?);
    }
  }

  /** Upstream sums, read as counts when every weight is 1, add up over the
      baselevel nodes to the total weight, and with non-negative weights
      never fall below a node's own weight. */
  lemma AccumulateMeaning(r: seq<nat>, w: seq<real>, data: seq<real>, unit: bool)
    requires Forest(r) && |w| == |r| && |data| == |r|
    requires forall x :: 0 <= x < |r| ==> data[x] == UpstreamSum(r, w, x)
    requires unit ==> forall m :: 0 <= m < |r| ==> w[m] == 1.0
    ensures unit ==> forall x :: 0 <= x < |r| ==> data[x] == |UpstreamNodes(r, x)| as real
    ensures SumWhere(data, BaseSel(r), |r|) == Total(w, |r|)
    ensures (forall m :: 0 <= m < |r| ==> w[m] >= 0.0) ==> forall x :: 0 <= x < |r| ==> data[x] >= w[x]
  {
    if forall m :: 0 <= m < |r| ==> w[m] >= 0.0 {
      forall x | 0 <= x < |r|
        ensures data[x] >= w[x]
      {
        UpstreamAtLeastOwn(r, w, x);
      }
    }
    if unit {
      forall x | 0 <= x < |r|
        ensures data[x] == |UpstreamNodes(r, x)| as real
      {
        UpstreamCount(r, w, x);
      }
    }
    Conservation(r, w);
    assert data == UpSums(r, w);
  }

  /** The baselevel nodes below `k` whose field value exceeds `threshold`,
      ascending. */
  function StartsBelow(r: seq<nat>, field: seq<real>, threshold: real, k: nat): (s: seq<nat>)
    requires k <= |r| && |field| == |r|
    ensures forall n: nat :: n in s <==> n < k && r[n] == n && field[n] > threshold
    ensures StrictlyIncreasing(s)
    ensures forall j :: 0 <= j < |s| ==> s[j] < k
  {
    if k == 0 then []
    else if r[k - 1] == k - 1 && field[k - 1] > threshold then StartsBelow(r, field, threshold, k - 1) + [k - 1]
    else StartsBelow(r, field, threshold, k - 1)
  }

  /** What `get_channel_segments` hands to the segment kernel. */
  datatype SegmentSeeds = SegmentSeeds(starts: seq<nat>, index: DonorIndex)

  /** The seeding part of `get_channel_segments`: the starting nodes are the
      baselevel nodes whose field value is strictly greater than the
      threshold, ascending, and the donor index inverts the receivers. A
      field with another number of entries cannot be combined with the
      baselevel mask. */
  function ChannelSegmentSeeds(acc: D8Accumulator, field: seq<real>, threshold: real): (r: Result<SegmentSeeds>)
    requires Valid(acc)
    ensures r.Err? <==> |field| != |acc.receivers|
    ensures r.Err? ==> r.error == ValueError
    ensures r.Ok? ==> StrictlyIncreasing(r.value.starts)
    ensures r.Ok? ==> forall n: nat :: n in r.value.starts <==>
      n in acc.baselevel && field[n] > threshold
    ensures r.Ok? ==> Indexes(r.value.index, acc.receivers)
  {
    if |field| != |acc.receivers| then Err(ValueError)
    else Ok(SegmentSeeds(StartsBelow(acc.receivers, field, threshold, |field|), BuildDonorIndex(acc.receivers)))
  }

  /** Lengths of a step east or west, north or south, and diagonal. */
  datatype StepLengths = StepLengths(dx: real, dy: real, diagonal: real)

  predicate NonNegative(steps: StepLengths) {
    steps.dx >= 0.0 && steps.dy >= 0.0 && steps.diagonal >= 0.0
  }

  function StepLength(s: Shape, steps: StepLengths, a: nat, b: nat): real
    requires a < s.Size() && b < s.Size()
  {
    if NodeRow(s, a) == NodeRow(s, b) then steps.dx
    else if NodeCol(s, a) == NodeCol(s, b) then steps.dy
    else steps.diagonal
  }

  /** Distance travelled along `p` from its first node, node by node. */
  function Along(s: Shape, steps: StepLengths, p: seq<nat>): (d: seq<real>)
    requires Nodes(p, s.Size())
    ensures |d| == |p|
    ensures |p| > 0 ==> d[0] == 0.0
  {
    if |p| <= 1 then seq(|p|, _ => 0.0)
    else
      var d := Along(s, steps, p[..|p| - 1]);
      d + [d[|p| - 2] + StepLength(s, steps, p[|p| - 2], p[|p| - 1])]
  }

  /** With non-negative step lengths, distance along a path never shrinks. */
  lemma {:induction false} AlongGrows(s: Shape, steps: StepLengths, p: seq<nat>, i: nat, j: nat)
    requires Nodes(p, s.Size()) && NonNegative(steps) && i <= j < |p|
    ensures Along(s, steps, p)[i] <= Along(s, steps, p)[j]
  {
    if j > i {
      var q := p[..|p| - 1];
      assert Nodes(q, s.Size());
      if j == |p| - 1 {
        AlongGrows(s, steps, q, i, j - 1);
        assert Along(s, steps, p)[j - 1] == Along(s, steps, q)[j - 1];
      } else {
        AlongGrows(s, steps, q, i, j);
      }
    }
  }

  /** The largest entry of a non-empty sequence. */
  function SeqMax(d: seq<real>): (m: real)
    requires |d| > 0
    ensures forall i :: 0 <= i < |d| ==> d[i] <= m
    ensures exists i :: 0 <= i < |d| && d[i] == m
  {
    if |d| == 1 then d[0]
    else
      var rest := SeqMax(d[1..]);
      assert forall i :: 1 <= i < |d| ==> d[i] == d[1..][i - 1];
      if d[0] >= rest then d[0] else rest
  }

  /** `np.amax(d) - d`: distances re-counted from the far end. */
  function MouthDistances(d: seq<real>): (m: seq<real>)
    requires |d| > 0
    ensures |m| == |d|
    ensures forall i :: 0 <= i < |d| ==> m[i] >= 0.0
    ensures exists i :: 0 <= i < |d| && m[i] == 0.0
    ensures forall i, j :: 0 <= i < |d| && 0 <= j < |d| ==> m[i] - m[j] == d[j] - d[i]
  {
    var top := SeqMax(d);
    var k :| 0 <= k < |d| && d[k] == top;
    var m := seq(|d|, i requires 0 <= i < |d| => top - d[i]);
    assert m[k] == 0.0;
    m
  }

  /** The visible tail of `get_profile`: an empty kernel output gives two
      empty arrays; otherwise the profile is returned with its distances
      counted from the mouth. */
  function ProfileOutput(profile: seq<nat>, distance: seq<real>): (r: (seq<nat>, seq<real>))
    requires |profile| == |distance|
    ensures |r.0| == |r.1| == |profile|
    ensures r.0 == profile
    ensures |profile| > 0 ==> r.1 == MouthDistances(distance)
  {
    if |profile| == 0 then ([], []) else (profile, MouthDistances(distance))
  }

  /** Counted from the mouth, the distances along a non-empty path are 0 at
      its last node, never negative, and shrink from node to node. */
  lemma MouthDistancesShrink(s: Shape, steps: StepLengths, p: seq<nat>)
    requires Nodes(p, s.Size()) && NonNegative(steps) && |p| > 0
    ensures var m := MouthDistances(Along(s, steps, p));
      && m[|p| - 1] == 0.0
      && forall i, j :: 0 <= i <= j < |p| ==> m[j] <= m[i]
  {
    var d := Along(s, steps, p);
    var m := MouthDistances(d);
    forall i, j | 0 <= i <= j < |p|
      ensures m[j] <= m[i]
    {
      AlongGrows(s, steps, p, i, j);
    }
    var k :| 0 <= k < |p| && m[k] == 0.0;
    AlongGrows(s, steps, p, k, |p| - 1);
  }

  /** `get_profile`: a start node outside `0 .. size - 1` is refused with a
      ValueError; an accumulator without a dataset has no geotransform to
      read the cell size from (`None.GetGeoTransform()`). Otherwise the
      profile is the downstream path from the start node, and its distances
      count from the mouth: 0 at the last node, never negative, and
      shrinking downstream. */
  function GetProfile(acc: D8Accumulator, start: int, steps: StepLengths): (r: Result<(seq<nat>, seq<real>)>)
    requires Valid(acc)
    ensures start < 0 || start >= acc.shape.Size() ==> r == Err(ValueError)
    ensures r.Err? <==> start < 0 || start >= acc.shape.Size() || !acc.hasDataset
    ensures r.Ok? ==> 0 < |r.value.0| == |r.value.1| && r.value.0[0] == start
    ensures r.Ok? ==> Nodes(r.value.0, |acc.receivers|) && Chain(acc.receivers, r.value.0)
    ensures r.Ok? && Forest(acc.receivers) ==> IsBase(acc.receivers, r.value.0[|r.value.0| - 1])
    ensures r.Ok? ==> forall i :: 0 <= i < |r.value.1| ==> r.value.1[i] >= 0.0
    ensures r.Ok? && NonNegative(steps) ==> r.value.1[|r.value.1| - 1] == 0.0
    ensures r.Ok? && NonNegative(steps) ==> forall i, j :: 0 <= i <= j < |r.value.1| ==> r.value.1[j] <= r.value.1[i]
  {
    if start < 0 || start >= acc.shape.Size() then Err(ValueError)
    else if !acc.hasDataset then Err(AttributeError)
    else
      var r := acc.receivers;
      var p := Path(r, start, |r|);
      PathChain(r, start, |r|);
      var d := Along(acc.shape, steps, p);
      assert Forest(r) ==> Drains(r, start);
      if NonNegative(steps) then
        MouthDistancesShrink(acc.shape, steps, p);
        Ok(ProfileOutput(p, d))
      else Ok(ProfileOutput(p, d))
  }
}
