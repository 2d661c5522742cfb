/** Properties of the upstream sum that `accumulate` computes: with unit
    weights it counts the upstream set, with indicator weights it counts the
    marked nodes upstream, and on an acyclic network the values at the
    baselevel nodes add up to the total weight (nothing is lost or counted
    twice). */
module Upstream {
  import opened Drainage
  import opened Sums
  import opened Accumulation

  /** The upstream set is the set the reference sum selects. */
  lemma UpstreamSelected(r: seq<nat>, x: nat)
    requires ValidReceivers(r)
    ensures Selected(DrainsToSel(r, x), |r|) == UpstreamNodes(r, x)
  {
  }

  /** With every weight 1 (the default of `accumulate`), a node's value is
      the number of nodes that drain to it, itself included. */
  lemma UpstreamCount(r: seq<nat>, w: seq<real>, x: nat)
    requires ValidReceivers(r) && |w| == |r|
    requires forall m :: 0 <= m < |r| ==> w[m] == 1.0
    ensures UpstreamSum(r, w, x) == |UpstreamNodes(r, x)| as real
  {
    SumCount(w, DrainsToSel(r, x), |r|);
    UpstreamSelected(r, x);
  }

  /** With weight 1 on the nodes of `s` and 0 elsewhere, a node's value is
      the number of nodes of `s` that drain to it. */
  lemma UpstreamIndicator(r: seq<nat>, w: seq<real>, s: set<nat>, x: nat)
    requires ValidReceivers(r) && |w| == |r|
    requires forall m: nat :: m < |r| ==> w[m] == if m in s then 1.0 else 0.0
    ensures UpstreamSum(r, w, x) == |UpstreamNodes(r, x) * s| as real
  {
    SumIndicator(w, DrainsToSel(r, x), s, |r|);
    assert SelectedIn(DrainsToSel(r, x), s, |r|) == UpstreamNodes(r, x) * s;
  }

  /** With non-negative weights a node's value is at least its own weight:
      the node drains to itself, and the other nodes add nothing negative. */
  lemma UpstreamAtLeastOwn(r: seq<nat>, w: seq<real>, x: nat)
    requires ValidReceivers(r) && |w| == |r| && x < |r|
    requires forall m :: 0 <= m < |r| ==> w[m] >= 0.0
    ensures UpstreamSum(r, w, x) >= w[x]
  {
    var own := seq(|r|, m requires 0 <= m < |r| => m == x);
    SumSingle(w, own, x, |r|);
    assert Path(r, x, |r|)[0] == x;
    SumMono(w, own, DrainsToSel(r, x), |r|);
  }

  /** The upstream sums of all nodes. */
  function UpSums(r: seq<nat>, w: seq<real>): (u: seq<real>)
    requires ValidReceivers(r) && |w| == |r|
    ensures |u| == |r|
  {
    seq(|r|, b requires 0 <= b < |r| => UpstreamSum(r, w, b))
  }

  /** The baselevel nodes, as a selection. */
  function BaseSel(r: seq<nat>): (sel: seq<bool>)
    ensures |sel| == |r|
  {
    seq(|r|, b requires 0 <= b < |r| => r[b] == b)
  }

  /** The weights of the nodes below `k`; the others weigh nothing. */
  function WeightsBelow(w: seq<real>, k: nat): (v: seq<real>)
    ensures |v| == |w|
  {
    seq(|w|, m requires 0 <= m < |w| => if m < k then w[m] else 0.0)
  }

  /** Adding the weight of node `k` adds it to exactly one baselevel node:
      the outlet of `k`. */
  lemma {:induction false} ConservationPrefix(r: seq<nat>, w: seq<real>, k: nat)
    requires Forest(r) && |w| == |r| && k <= |r|
    ensures SumWhere(UpSums(r, WeightsBelow(w, k)), BaseSel(r), |r|) == Total(w, k)
  {
    var n := |r|;
    if k == 0 {
      var w0 := WeightsBelow(w, 0);
      forall b | 0 <= b < n
        ensures UpSums(r, w0)[b] == 0.0
      {
        SumZero(w0, DrainsToSel(r, b), n);
      }
      SumZero(UpSums(r, w0), BaseSel(r), n);
    } else {
      var m := k - 1;
      ConservationPrefix(r, w, m);
      var lo, hi := WeightsBelow(w, m), WeightsBelow(w, k);
      assert hi == lo[m := w[m]];
      var extra := seq(n, b requires 0 <= b < n => if DrainsTo(r, m, b) then w[m] else 0.0);
      forall b | 0 <= b < n
        ensures UpSums(r, hi)[b] == UpSums(r, lo)[b] + extra[b]
      {
        SumUpdate(lo, DrainsToSel(r, b), n, m, w[m]);
      }
      SumAdd(UpSums(r, lo), extra, UpSums(r, hi), BaseSel(r), n);
      var o := Outlet(r, m);
      assert Drains(r, m);
      DrainsToBaseIsOutlet(r, m, o);
      forall b | 0 <= b < n && b != o && BaseSel(r)[b]
        ensures extra[b] == 0.0
      {
        DrainsToBaseIsOutlet(r, m, b);
      }
      SumOneSelected(extra, BaseSel(r), o, n);
    }
  }

  /** Conservation: on an acyclic network the upstream sums of the baselevel
      nodes add up to the total weight, since every node drains to exactly
      one of them. */
  lemma Conservation(r: seq<nat>, w: seq<real>)
    requires Forest(r) && |w| == |r|
    ensures SumWhere(UpSums(r, w), BaseSel(r), |r|) == Total(w, |r|)
  {
    ConservationPrefix(r, w, |r|);
    assert WeightsBelow(w, |r|) == w;
  }
}
