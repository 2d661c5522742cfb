/** The receiver resolver: a raster of ESRI D8 direction codes becomes a
    receiver array. The class documentation fixes the code table (0 sink,
    1 east, 2 south-east, 4 south, 8 south-west, 16 west, 32 north-west,
    64 north, 128 north-east; rows grow southwards) and the assumption that
    every boundary cell is a sink, so no flow leaves the grid. */
module D8 {
  import opened Wrappers
  import opened Grid
  import opened Drainage

  /** `(row offset, column offset)` of a non-sink direction code. */
  function Offset(code: int): (o: Option<(int, int)>)
    ensures o.Some? <==> code in {1, 2, 4, 8, 16, 32, 64, 128}
    ensures o.Some? ==> -1 <= o.value.0 <= 1 && -1 <= o.value.1 <= 1 && o.value != (0, 0)
  {
    if code == 1 then Some((0, 1))
    else if code == 2 then Some((1, 1))
    else if code == 4 then Some((1, 0))
    else if code == 8 then Some((1, -1))
    else if code == 16 then Some((0, -1))
    else if code == 32 then Some((-1, -1))
    else if code == 64 then Some((-1, 0))
    else if code == 128 then Some((-1, 1))
    else None
  }

  predicate OnBoundary(s: Shape, n: nat)
    requires n < s.Size()
  {
    var row, col := NodeRow(s, n), NodeCol(s, n);
    row == 0 || col == 0 || row == s.rows - 1 || col == s.cols - 1
  }

  /** A cell's code is usable: boundary cells are sinks whatever their code,
      interior cells must carry one of the nine ESRI codes. */
  predicate ValidCodeAt(s: Shape, codes: seq<int>, n: nat)
    requires |codes| == s.Size() && n < s.Size()
  {
    OnBoundary(s, n) || codes[n] == 0 || Offset(codes[n]).Some?
  }

  /** What the receiver `rn` of node `n` must be: a node; `n` itself exactly
      when `n` is on the boundary or coded 0; otherwise the neighbour that
      the code points at. */
  predicate ReceiverSpec(s: Shape, codes: seq<int>, n: nat, rn: nat)
    requires |codes| == s.Size() && n < s.Size()
  {
    && rn < s.Size()
    && (rn == n <==> OnBoundary(s, n) || codes[n] == 0)
    && (rn != n ==>
          && Offset(codes[n]).Some?
          && NodeRow(s, rn) == NodeRow(s, n) + Offset(codes[n]).value.0
          && NodeCol(s, rn) == NodeCol(s, n) + Offset(codes[n]).value.1)
  }

  /** The receiver of one node. */
  function ReceiverOf(s: Shape, codes: seq<int>, n: nat): (r: Result<nat>)
    requires |codes| == s.Size() && n < s.Size()
    ensures r.Ok? <==> ValidCodeAt(s, codes, n)
    ensures r.Ok? ==> ReceiverSpec(s, codes, n, r.value)
  {
    NodeRowColRoundTrip(s, n);
    if OnBoundary(s, n) || codes[n] == 0 then Ok(n)
    else match Offset(codes[n])
      case None => Err(ValueError)
      case Some(o) =>
        var row, col := NodeRow(s, n) + o.0, NodeCol(s, n) + o.1;
        var m := RowColToNode(s, row, col);
        NodeRowColRoundTrip(s, m);
        Ok(m)
  }

  /** Receivers of the nodes below `k`; the first invalid code is reported. */
  function ReceiversBelow(s: Shape, codes: seq<int>, k: nat): (r: Result<seq<nat>>)
    requires |codes| == s.Size() && k <= s.Size()
    ensures r.Ok? <==> forall n :: 0 <= n < k ==> ValidCodeAt(s, codes, n)
    ensures r.Ok? ==> |r.value| == k
    ensures r.Ok? ==> forall n :: 0 <= n < k ==> ReceiverSpec(s, codes, n, r.value[n])
  {
    if k == 0 then Ok([])
    else
      var prefix :- ReceiversBelow(s, codes, k - 1);
      var last :- ReceiverOf(s, codes, k - 1);
      Ok(prefix + [last])
  }

  /** `d8_to_receivers`: fails with a ValueError if an interior cell carries a
      code outside the table; otherwise every receiver is a node, a node is
      its own receiver exactly when it is on the boundary or coded 0, and any
      other node drains into the neighbour its code points at. */
  function D8ToReceivers(s: Shape, codes: seq<int>): (r: Result<seq<nat>>)
    requires |codes| == s.Size()
    ensures r.Ok? <==> forall n :: 0 <= n < s.Size() ==> ValidCodeAt(s, codes, n)
    ensures r.Ok? ==> |r.value| == s.Size() && ValidReceivers(r.value)
    ensures r.Ok? ==> forall n :: 0 <= n < s.Size() ==> ReceiverSpec(s, codes, n, r.value[n])
  {
    ReceiversBelow(s, codes, s.Size())
  }

  /** Every boundary node is a baselevel node of the resolved network. */
  lemma BoundaryNodesAreBaselevel(s: Shape, codes: seq<int>, n: nat)
    requires |codes| == s.Size() && n < s.Size() && OnBoundary(s, n)
    requires D8ToReceivers(s, codes).Ok?
    ensures n in BaselevelNodes(D8ToReceivers(s, codes).value)
  {
  }
}
