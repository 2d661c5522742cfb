/** `accumulate_flow`: every node's accumulated value is the sum of the
    weights of the nodes upstream of it, itself included. The kernel walks
    the queue order from its end, so every node is finished before its
    receiver, and passes each node's total on to its receiver.

    The reference definition, `UpstreamSum`, does not mention any order: it
    sums the weights over the nodes whose downstream path meets the node.
    The proof follows the walk with a "token" view: after the nodes at
    positions `t ..` of the order have been passed on, the weight of node `m`
    has travelled down its path as far as the first node at a position
    below `t`, and `acc[x]` holds exactly the weights whose travel so far
    has met `x` (`Visits`). */
module Accumulation {
  import opened Drainage
  import opened Ordering
  import opened Sums

  /** The nodes that drain to `x`. */
  function DrainsToSel(r: seq<nat>, x: nat): (sel: seq<bool>)
    requires ValidReceivers(r)
    ensures |sel| == |r|
  {
    seq(|r|, m requires 0 <= m < |r| => DrainsTo(r, m, x))
  }

  /** Reference definition: the sum of `w[m]` over every node `m` that
      drains to `x`. */
  function UpstreamSum(r: seq<nat>, w: seq<real>, x: nat): real
    requires ValidReceivers(r) && |w| == |r|
  {
    SumWhere(w, DrainsToSel(r, x), |r|)
  }

  /** Nodes whose weight a walk over `order` carries to `x`: `x` itself, and
      the listed nodes that drain to `x`. */
  function OrderedSel(r: seq<nat>, order: seq<nat>, x: nat): (sel: seq<bool>)
    requires ValidReceivers(r)
    ensures |sel| == |r|
  {
    seq(|r|, m requires 0 <= m < |r| => m == x || (m in order && DrainsTo(r, m, x)))
  }

  /** Position of `m` in `s`, or -1 when it is not listed. */
  function IndexOf(s: seq<nat>, m: nat): (k: int)
    ensures -1 <= k < |s|
    ensures k >= 0 ==> s[k] == m
    ensures k < 0 <==> m !in s
  {
    if |s| == 0 then -1
    else if s[|s| - 1] == m then |s| - 1
    else IndexOf(s[..|s| - 1], m)
  }

  /** `pos` inverts `order` on the nodes `0 .. n - 1`. */
  predicate PosOf(order: seq<nat>, pos: seq<int>, n: nat) {
    && |pos| == n
    && Nodes(order, n)
    && (forall k :: 0 <= k < |order| ==> pos[order[k]] == k)
    && forall m :: 0 <= m < n ==>
         && -1 <= pos[m] < |order|
         && (pos[m] >= 0 ==> order[pos[m]] == m)
         && (pos[m] < 0 ==> m !in order)
  }

  /** A listed node that is not baselevel sits after its receiver, which is
      listed too. */
  predicate TopoPos(r: seq<nat>, pos: seq<int>)
    requires ValidReceivers(r)
  {
    && |pos| == |r|
    && forall m :: 0 <= m < |r| ==>
         && pos[m] >= -1
         && (pos[m] >= 0 && r[m] != m ==> 0 <= pos[r[m]] < pos[m])
  }

  ghost function Positions(order: seq<nat>, n: nat): (pos: seq<int>)
    requires Distinct(order) && Nodes(order, n)
    ensures PosOf(order, pos, n)
  {
    var pos := seq(n, m requires 0 <= m < n => IndexOf(order, m));
    assert forall k :: 0 <= k < |order| ==> pos[order[k]] == k by {
      forall k | 0 <= k < |order|
        ensures pos[order[k]] == k
      {
        var j := IndexOf(order, order[k]);
        assert order[j] == order[k];
      }
    }
    pos
  }

  /** The inverse of a topological order places receivers first. */
  lemma PositionsTopo(r: seq<nat>, order: seq<nat>, pos: seq<int>)
    requires ValidReceivers(r) && Distinct(order) && Nodes(order, |r|) && TopoOrdered(r, order)
    requires PosOf(order, pos, |r|)
    ensures TopoPos(r, pos)
  {
    forall m | 0 <= m < |r| && pos[m] >= 0 && r[m] != m
      ensures 0 <= pos[r[m]] < pos[m]
    {
      var k := pos[m];
      assert order[k] == m;
      assert r[m] in order[..k];
      var j :| 0 <= j < k && order[..k][j] == r[m];
      assert order[pos[r[m]]] == order[j];
    }
  }

  /** After the nodes at positions `t ..` have been passed on, the weight of
      `m` has reached `x`. */
  predicate Visits(r: seq<nat>, pos: seq<int>, m: nat, x: nat, t: nat)
    requires ValidReceivers(r) && TopoPos(r, pos) && m < |r|
    decreases pos[m] + 1
  {
    m == x || (pos[m] >= t && r[m] != m && Visits(r, pos, r[m], x, t))
  }

  function VisitSel(r: seq<nat>, pos: seq<int>, x: nat, t: nat): (sel: seq<bool>)
    requires ValidReceivers(r) && TopoPos(r, pos)
    ensures |sel| == |r|
  {
    seq(|r|, m requires 0 <= m < |r| => Visits(r, pos, m, x, t))
  }

  /** Before anything is passed on, each weight has reached only its own node. */
  lemma VisitsInitial(r: seq<nat>, pos: seq<int>, order: seq<nat>, m: nat, x: nat)
    requires ValidReceivers(r) && TopoPos(r, pos) && PosOf(order, pos, |r|) && m < |r|
    ensures Visits(r, pos, m, x, |order|) <==> m == x
  {
  }

  /** Passing on `p = order[t - 1]` changes what reaches `x` only when `x` is
      the receiver of `p`. */
  lemma {:induction false} VisitsUnchanged(r: seq<nat>, pos: seq<int>, order: seq<nat>, m: nat, x: nat, t: nat)
    requires ValidReceivers(r) && TopoPos(r, pos) && PosOf(order, pos, |r|)
    requires m < |r| && 1 <= t <= |order|
    requires r[order[t - 1]] == order[t - 1] || x != r[order[t - 1]]
    ensures Visits(r, pos, m, x, t - 1) == Visits(r, pos, m, x, t)
    decreases pos[m] + 1
  {
    if m != x && pos[m] >= t && r[m] != m {
      VisitsUnchanged(r, pos, order, r[m], x, t);
    }
  }

  /** Passing on `p = order[t - 1]` into its receiver `q`: afterwards a weight
      has reached `q` exactly when it had reached `q` or `p` before, and no
      weight had reached both. */
  lemma {:induction false} VisitsSplit(r: seq<nat>, pos: seq<int>, order: seq<nat>, m: nat, t: nat)
    requires ValidReceivers(r) && TopoPos(r, pos) && PosOf(order, pos, |r|)
    requires m < |r| && 1 <= t <= |order| && r[order[t - 1]] != order[t - 1]
    ensures var p := order[t - 1];
      Visits(r, pos, m, r[p], t - 1) == (Visits(r, pos, m, r[p], t) || Visits(r, pos, m, p, t))
    ensures var p := order[t - 1];
      !(Visits(r, pos, m, r[p], t) && Visits(r, pos, m, p, t))
    decreases pos[m] + 1
  {
    var p := order[t - 1];
    var q := r[p];
    assert pos[p] == t - 1;
    if m == q {
      assert !Visits(r, pos, q, p, t);
    } else if m == p {
      assert Visits(r, pos, q, q, t - 1);
    } else if pos[m] >= t && r[m] != m {
      VisitsSplit(r, pos, order, r[m], t);
    }
  }

  /** The travel of a listed weight follows its downstream path. */
  lemma {:induction false} VisitsOnPath(r: seq<nat>, pos: seq<int>, m: nat, x: nat, fuel: nat)
    requires ValidReceivers(r) && TopoPos(r, pos) && m < |r|
    requires Visits(r, pos, m, x, 0) && pos[m] <= fuel
    ensures x in Path(r, m, fuel)
    decreases pos[m] + 1
  {
    if m != x {
      VisitsOnPath(r, pos, r[m], x, fuel - 1);
    }
  }

  /** The downstream path of a listed node stays among the listed nodes. */
  lemma {:induction false} PathListed(r: seq<nat>, pos: seq<int>, p: seq<nat>, k: nat)
    requires ValidReceivers(r) && TopoPos(r, pos)
    requires 0 < |p| && k < |p|
    requires Nodes(p, |r|) && Chain(r, p)
    requires pos[p[0]] >= 0
    ensures pos[p[k]] >= 0
  {
    if k > 0 {
      PathListed(r, pos, p, k - 1);
    }
  }

  /** Along the downstream path of a listed node, every weight reaches every
      later node of the path once everything has been passed on. */
  lemma {:induction false} PathVisits(r: seq<nat>, pos: seq<int>, p: seq<nat>, j: nat, k: nat)
    requires ValidReceivers(r) && TopoPos(r, pos)
    requires 0 < |p| && j <= k < |p|
    requires Nodes(p, |r|) && Chain(r, p)
    requires pos[p[0]] >= 0
    ensures Visits(r, pos, p[j], p[k], 0)
    decreases k - j
  {
    if j < k {
      PathVisits(r, pos, p, j + 1, k);
      PathListed(r, pos, p, j);
    }
  }

  /** Once every listed node has been passed on, the weights that reached
      `x` are those of `x` and of the listed nodes that drain to `x`. */
  lemma VisitsFinal(r: seq<nat>, pos: seq<int>, order: seq<nat>, m: nat, x: nat)
    requires ValidReceivers(r) && TopoPos(r, pos) && PosOf(order, pos, |r|) && |order| <= |r|
    requires m < |r|
    ensures Visits(r, pos, m, x, 0) <==> m == x || (m in order && DrainsTo(r, m, x))
  {
    if Visits(r, pos, m, x, 0) && m != x {
      VisitsOnPath(r, pos, m, x, |r|);
    }
    if m in order && DrainsTo(r, m, x) {
      var p := Path(r, m, |r|);
      var k :| 0 <= k < |p| && p[k] == x;
      PathChain(r, m, |r|);
      PathVisits(r, pos, p, 0, k);
    }
  }

  /** One step of the walk: passing `order[t - 1]` on to its receiver. */
  lemma StepSums(r: seq<nat>, pos: seq<int>, order: seq<nat>, w: seq<real>, t: nat, x: nat)
    requires ValidReceivers(r) && TopoPos(r, pos) && PosOf(order, pos, |r|)
    requires |w| == |r| && 1 <= t <= |order| && x < |r|
    ensures var p := order[t - 1];
      SumWhere(w, VisitSel(r, pos, x, t - 1), |r|) ==
        if r[p] != p && x == r[p]
        then SumWhere(w, VisitSel(r, pos, x, t), |r|) + SumWhere(w, VisitSel(r, pos, p, t), |r|)
        else SumWhere(w, VisitSel(r, pos, x, t), |r|)
  {
    var p := order[t - 1];
    if r[p] != p && x == r[p] {
      forall m | 0 <= m < |r|
        ensures VisitSel(r, pos, x, t - 1)[m] <==> VisitSel(r, pos, x, t)[m] || VisitSel(r, pos, p, t)[m]
        ensures !(VisitSel(r, pos, x, t)[m] && VisitSel(r, pos, p, t)[m])
      {
        VisitsSplit(r, pos, order, m, t);
      }
      SumUnion(w, VisitSel(r, pos, x, t), VisitSel(r, pos, p, t), VisitSel(r, pos, x, t - 1), |r|);
    } else {
      forall m | 0 <= m < |r|
        ensures VisitSel(r, pos, x, t - 1)[m] == VisitSel(r, pos, x, t)[m]
      {
        VisitsUnchanged(r, pos, order, m, x, t);
      }
      SumSame(w, VisitSel(r, pos, x, t - 1), VisitSel(r, pos, x, t), |r|);
    }
  }

  /** `accumulate_flow(receivers, order, weights)`: walking the order from
      its end, each node adds its total to its receiver's. Every node ends
      with its own weight plus the weights of the listed nodes that drain to
      it; when the order lists every node (an acyclic network), that is the
      sum of the weights over its whole upstream set. */
  method AccumulateFlow(r: seq<nat>, order: seq<nat>, w: seq<real>) returns (acc: seq<real>)
    requires ValidReceivers(r) && |w| == |r|
    requires Distinct(order) && Nodes(order, |r|) && TopoOrdered(r, order)
    ensures |acc| == |r|
    ensures forall x :: 0 <= x < |r| ==> acc[x] == SumWhere(w, OrderedSel(r, order, x), |r|)
    ensures |order| == |r| ==> forall x :: 0 <= x < |r| ==> acc[x] == UpstreamSum(r, w, x)
  {
    ghost var pos := Positions(order, |r|);
    PositionsTopo(r, order, pos);
    DistinctBounded(order, |r|);
    acc := Walk(r, order, w, pos);
    FinalSums(r, pos, order, w, acc);
  }

  /** The walk itself: from the end of the order to its start, each node's
      value is added to its receiver's. */
  method Walk(r: seq<nat>, order: seq<nat>, w: seq<real>, ghost pos: seq<int>) returns (acc: seq<real>)
    requires ValidReceivers(r) && |w| == |r| && TopoPos(r, pos) && PosOf(order, pos, |r|)
    ensures |acc| == |r| && Reached(r, pos, w, acc, 0)
  {
    acc := w;
    var t := |order|;
    InitialSums(r, pos, order, w);
    while t > 0
      invariant 0 <= t <= |order|
      invariant |acc| == |r|
      invariant Reached(r, pos, w, acc, t)
    {
      var p := order[t - 1];
      var q := r[p];
      WalkStep(r, pos, order, w, acc, t);
      if q != p {
        acc := acc[q := acc[q] + acc[p]];
      }
      t := t - 1;
    }
  }

  /** Every node's value is the sum of the weights that have reached it. */
  ghost predicate Reached(r: seq<nat>, pos: seq<int>, w: seq<real>, acc: seq<real>, t: nat)
    requires ValidReceivers(r) && TopoPos(r, pos) && |w| == |r| && |acc| == |r|
  {
    forall x :: 0 <= x < |r| ==> acc[x] == SumWhere(w, VisitSel(r, pos, x, t), |r|)
  }

  /** Passing `order[t - 1]` on to its receiver keeps every node's value
      equal to the weights that have reached it. */
  lemma WalkStep(r: seq<nat>, pos: seq<int>, order: seq<nat>, w: seq<real>, acc: seq<real>, t: nat)
    requires ValidReceivers(r) && TopoPos(r, pos) && PosOf(order, pos, |r|)
    requires |w| == |r| && |acc| == |r| && 1 <= t <= |order|
    requires Reached(r, pos, w, acc, t)
    ensures var p := order[t - 1];
      Reached(r, pos, w, if r[p] != p then acc[r[p] := acc[r[p]] + acc[p]] else acc, t - 1)
  {
    forall x | 0 <= x < |r|
      ensures SumWhere(w, VisitSel(r, pos, x, t - 1), |r|) ==
        if r[order[t - 1]] != order[t - 1] && x == r[order[t - 1]]
        then acc[x] + acc[order[t - 1]] else acc[x]
    {
      StepSums(r, pos, order, w, t, x);
    }
  }

  /** Before the walk every node holds just its own weight. */
  lemma InitialSums(r: seq<nat>, pos: seq<int>, order: seq<nat>, w: seq<real>)
    requires ValidReceivers(r) && TopoPos(r, pos) && PosOf(order, pos, |r|) && |w| == |r|
    ensures Reached(r, pos, w, w, |order|)
  {
    forall x | 0 <= x < |r|
      ensures w[x] == SumWhere(w, VisitSel(r, pos, x, |order|), |r|)
    {
      forall m | 0 <= m < |r|
        ensures VisitSel(r, pos, x, |order|)[m] <==> m == x
      {
        VisitsInitial(r, pos, order, m, x);
      }
      SumSingle(w, VisitSel(r, pos, x, |order|), x, |r|);
    }
  }

  /** After the walk every node holds the weights of the listed nodes that
      drain to it, and, when every node is listed, its upstream sum. */
  lemma FinalSums(r: seq<nat>, pos: seq<int>, order: seq<nat>, w: seq<real>, acc: seq<real>)
    requires ValidReceivers(r) && TopoPos(r, pos) && PosOf(order, pos, |r|) && |w| == |r|
    requires Distinct(order) && |order| <= |r| && |acc| == |r|
    requires Reached(r, pos, w, acc, 0)
    ensures forall x :: 0 <= x < |r| ==> acc[x] == SumWhere(w, OrderedSel(r, order, x), |r|)
    ensures |order| == |r| ==> forall x :: 0 <= x < |r| ==> acc[x] == UpstreamSum(r, w, x)
  {
    forall x | 0 <= x < |r|
      ensures SumWhere(w, VisitSel(r, pos, x, 0), |r|) == SumWhere(w, OrderedSel(r, order, x), |r|)
    {
      forall m | 0 <= m < |r|
        ensures VisitSel(r, pos, x, 0)[m] == OrderedSel(r, order, x)[m]
      {
        VisitsFinal(r, pos, order, m, x);
      }
      SumSame(w, VisitSel(r, pos, x, 0), OrderedSel(r, order, x), |r|);
    }
    if |order| == |r| {
      forall x | 0 <= x < |r|
        ensures SumWhere(w, OrderedSel(r, order, x), |r|) == UpstreamSum(r, w, x)
      {
        AllListedSel(r, order, x);
        SumSame(w, OrderedSel(r, order, x), DrainsToSel(r, x), |r|);
      }
    }
  }

  /** When the order lists every node, the walk carries every upstream
      weight. */
  lemma AllListedSel(r: seq<nat>, order: seq<nat>, x: nat)
    requires ValidReceivers(r) && Distinct(order) && Nodes(order, |r|) && |order| == |r|
    ensures forall m :: 0 <= m < |r| ==> OrderedSel(r, order, x)[m] == DrainsToSel(r, x)[m]
  {
    DistinctBounded(order, |r|);
    forall m | 0 <= m < |r|
      ensures m in order
    {
      AllNodesListed(order, |r|, m);
    }
  }

  /** `n` distinct nodes below `n` are all of them. */
  lemma AllNodesListed(s: seq<nat>, n: nat, m: nat)
    requires Distinct(s) && Nodes(s, n) && |s| == n && m < n
    ensures m in s
  {
    DistinctCard(s);
    RangeCard(n);
    assert Elems(s) <= Range(n);
    if m !in s {
      assert Elems(s) <= Range(n) - {m};
      SubsetCard(Elems(s), Range(n) - {m});
    }
  }
}
