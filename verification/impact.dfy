/** `WaterCompany._calculate_downstream_impact`: every source monitor marks
    its cell with weight 1, and accumulating those weights gives, at each
    cell, how many marked cells lie upstream of it. A monitor is located by
    the pixel indices `coord_to_node` computes from its coordinates; a
    monitor whose lookup raises ValueError is skipped.

    As written, the bounds check of `coord_to_node` lets the index
    `rows*cols` through, and marking it then raises an IndexError, which the
    loop does not catch. The corrected version places a monitor only when
    its pixel lies inside the grid. */
module Impact {
  import opened Wrappers
  import opened Grid
  import opened Drainage
  import opened Accumulation
  import opened Upstream
  import opened Accumulator
  import opened Segments

  /** A monitor's pixel indices `(x_ind, y_ind)`. */
  type Pixel = (int, int)

  /** The source nodes as written: the accepted `coord_to_node` results, in
      monitor order, out-of-bounds monitors skipped. */
  function SourceNodesAsWritten(s: Shape, monitors: seq<Pixel>): (nodes: seq<int>)
    ensures forall v :: v in nodes ==> 0 <= v <= s.Size()
    ensures forall v ::
      v in nodes <==> (exists i :: 0 <= i < |monitors| && CoordIndicesToNodeAsWritten(s, monitors[i].0, monitors[i].1) == Ok(v))
  {
    if |monitors| == 0 then []
    else
      var init := monitors[..|monitors| - 1];
      var rest := SourceNodesAsWritten(s, init);
      var last := monitors[|monitors| - 1];
      var nodes := match CoordIndicesToNodeAsWritten(s, last.0, last.1)
        case Ok(v) => rest + [v]
        case Err(_) => rest;
      assert forall i :: 0 <= i < |init| ==> monitors[i] == init[i];
      nodes
  }

  /** Weight 1 on the nodes of `sources`, 0 elsewhere. */
  function Indicator(n: nat, sources: set<nat>): (w: seq<real>)
    ensures |w| == n
    ensures forall m: nat :: m < n ==> w[m] == if m in sources then 1.0 else 0.0
  {
    seq(n, m requires 0 <= m < n => if m in sources then 1.0 else 0.0)
  }

  /** `source_array[source_nodes] = 1` on an array of `n` zeros: an index
      past the end raises IndexError; repeated indices still give 1. */
  function MarkAsWritten(n: nat, nodes: seq<int>): (r: Result<seq<real>>)
    requires forall v :: v in nodes ==> v >= 0
    ensures r.Err? <==> exists v :: v in nodes && v >= n
    ensures r.Err? ==> r.error == IndexError
    ensures r.Ok? ==> r.value == Indicator(n, set v: nat | v in nodes)
  {
    if exists v :: v in nodes && v >= n then Err(IndexError)
    else Ok(Indicator(n, set v: nat | v in nodes))
  }

  /** Counterexample: one monitor on the pixel just below the last row is
      accepted by the bounds check and then cannot be marked. */
  lemma ImpactRaisesOnePastEnd(s: Shape)
    ensures SourceNodesAsWritten(s, [(0, s.rows as int)]) == [s.Size() as int]
    ensures MarkAsWritten(s.Size(), SourceNodesAsWritten(s, [(0, s.rows as int)])) == Err(IndexError)
  {
    var monitors: seq<Pixel> := [(0, s.rows as int)];
    CoordIndicesAcceptsOnePastEnd(s);
    assert monitors[..0] == [];
    assert SourceNodesAsWritten(s, monitors) == [s.Size() as int];
    assert s.Size() as int in SourceNodesAsWritten(s, monitors);
  }

  /** `_calculate_downstream_impact` as written. */
  method DownstreamImpactAsWritten(acc: D8Accumulator, monitors: seq<Pixel>) returns (r: Result<Array<real>>)
    requires Valid(acc)
    ensures r.Err? <==> (exists i ::
      0 <= i < |monitors| && CoordIndicesToNodeAsWritten(acc.shape, monitors[i].0, monitors[i].1) == Ok(acc.shape.Size() as int))
    ensures r.Err? ==> r.error == IndexError
    ensures r.Ok? ==> r.value.dims == [acc.shape.rows, acc.shape.cols] && |r.value.data| == acc.shape.Size()
    ensures r.Ok? && Forest(acc.receivers) ==> forall x :: 0 <= x < acc.shape.Size() ==>
      r.value.data[x] == |UpstreamNodes(acc.receivers, x) * (set v: nat | v in SourceNodesAsWritten(acc.shape, monitors))| as real
  {
    var nodes := SourceNodesAsWritten(acc.shape, monitors);
    var marks := MarkAsWritten(acc.shape.Size(), nodes);
    if marks.Err? {
      return Err(IndexError);
    }
    r := Accumulate(acc, Some(Array([acc.shape.rows, acc.shape.cols], marks.value)));
    if Forest(acc.receivers) {
      var sources := set v: nat | v in nodes;
      forall x | 0 <= x < acc.shape.Size()
        ensures r.value.data[x] == |UpstreamNodes(acc.receivers, x) * sources| as real
      {
        UpstreamIndicator(acc.receivers, marks.value, sources, x);
      }
    }
  }

  /** Counterexample: a monitor one column left of the grid on row 1 is
      counted as written as a source on the last cell of row 0, so that cell
      gets impact 1, while the corrected version places no source and gives
      it 0. */
  lemma ImpactCountsWrappedMonitor(s: Shape, r: seq<nat>)
    requires s.rows >= 2 && s.cols >= 1 && ValidReceivers(r) && |r| == s.Size()
    ensures (set v: nat | v in SourceNodesAsWritten(s, [(-1, 1)])) == {s.cols - 1}
    ensures SourceNodes(s, [(-1, 1)]) == {}
    ensures |UpstreamNodes(r, s.cols - 1) * (set v: nat | v in SourceNodesAsWritten(s, [(-1, 1)]))| == 1
    ensures |UpstreamNodes(r, s.cols - 1) * SourceNodes(s, [(-1, 1)])| == 0
  {
    var monitors: seq<Pixel> := [(-1, 1)];
    var c: nat := s.cols - 1;
    CoordIndicesWrapAround(s);
    assert monitors[..0] == [];
    assert SourceNodesAsWritten(s, monitors) == [c];
    assert (set v: nat | v in SourceNodesAsWritten(s, monitors)) == {c};
    assert SourceNodes(s, monitors) == {};
    SelfUpstream(r, c);
    assert UpstreamNodes(r, c) * {c} == {c};
  }

  /** The source nodes of the corrected version: the nodes of the monitors
      whose pixel lies inside the grid. */
  function SourceNodes(s: Shape, monitors: seq<Pixel>): (nodes: set<nat>)
    ensures forall v :: v in nodes ==> v < s.Size()
    ensures forall v ::
      v in nodes <==> (exists i :: 0 <= i < |monitors| && CoordIndicesToNode(s, monitors[i].0, monitors[i].1) == Ok(v))
  {
    if |monitors| == 0 then {}
    else
      var init := monitors[..|monitors| - 1];
      var rest := SourceNodes(s, init);
      var last := monitors[|monitors| - 1];
      var nodes := match CoordIndicesToNode(s, last.0, last.1)
        case Ok(v) => rest + {v}
        case Err(_) => rest;
      assert forall i :: 0 <= i < |init| ==> monitors[i] == init[i];
      nodes
  }

  /** Corrected `_calculate_downstream_impact`: monitors outside the grid
      are skipped; on a network where no flow circulates, every cell gets
      the number of distinct source cells upstream of it, itself included. */
  method DownstreamImpact(acc: D8Accumulator, monitors: seq<Pixel>) returns (impact: Array<real>)
    requires Valid(acc)
    ensures impact.dims == [acc.shape.rows, acc.shape.cols] && |impact.data| == acc.shape.Size()
    ensures Forest(acc.receivers) ==> forall x :: 0 <= x < acc.shape.Size() ==>
      impact.data[x] == |UpstreamNodes(acc.receivers, x) * SourceNodes(acc.shape, monitors)| as real
  {
    var n := acc.shape.Size();
    var sources := SourceNodes(acc.shape, monitors);
    var w := Indicator(n, sources);
    var r := Accumulate(acc, Some(Array([acc.shape.rows, acc.shape.cols], w)));
    impact := r.value;
    if Forest(acc.receivers) {
      forall x | 0 <= x < n
        ensures impact.data[x] == |UpstreamNodes(acc.receivers, x) * sources| as real
      {
        UpstreamIndicator(acc.receivers, w, sources, x);
      }
    }
  }
}
