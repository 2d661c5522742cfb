/** `build_ordered_list_iterative`: the queue-based ordering of Braun and
    Willett (2013). The queue starts with the baselevel nodes; taking a node
    off the queue appends its direct donors, read from the donor index. The
    finished queue lists every node after its receiver, so walking it from
    the end visits every node before the node it drains into. */
module Ordering {
  import opened Drainage
  import opened Donors

  /** Every non-baselevel entry comes after its receiver. */
  predicate TopoOrdered(r: seq<nat>, order: seq<nat>)
    requires ValidReceivers(r) && Nodes(order, |r|)
  {
    forall k :: 0 <= k < |order| ==> r[order[k]] == order[k] || r[order[k]] in order[..k]
  }

  /** Every direct donor of a listed node is listed. */
  predicate Closed(r: seq<nat>, s: seq<nat>) {
    forall d :: 0 <= d < |r| && r[d] != d && r[d] in s ==> d in s
  }

  /** A node listed at position `k` of a topological order reaches a
      baselevel node within `k` steps. */
  lemma {:induction false} TopoDrains(r: seq<nat>, order: seq<nat>, k: nat, fuel: nat)
    requires ValidReceivers(r) && Nodes(order, |r|) && TopoOrdered(r, order)
    requires k < |order| && k <= fuel
    ensures IsBase(r, Path(r, order[k], fuel)[|Path(r, order[k], fuel)| - 1])
    decreases k
  {
    var m := order[k];
    if r[m] != m {
      assert r[m] in order[..k];
      var j :| 0 <= j < k && order[j] == r[m];
      TopoDrains(r, order, j, fuel - 1);
    }
  }

  /** A list closed under donors that holds the end of a downstream path
      holds the whole path. */
  lemma {:induction false} ClosedHoldsPath(r: seq<nat>, s: seq<nat>, p: seq<nat>, k: nat)
    requires ValidReceivers(r) && Closed(r, s)
    requires 0 < |p| && p[|p| - 1] in s && k < |p|
    requires Nodes(p, |r|) && Chain(r, p)
    ensures p[k] in s
    decreases |p| - k
  {
    if k < |p| - 1 {
      ClosedHoldsPath(r, s, p, k + 1);
    }
  }

  /** `build_ordered_list_iterative(receivers, baselevel_nodes)`. The order
      starts with the baselevel nodes in ascending order, lists no node
      twice, lists every node after its receiver, and lists exactly the
      nodes that reach a baselevel node; on an acyclic network that is every
      node, so the order is a permutation of the nodes. */
  method BuildOrder(r: seq<nat>) returns (order: seq<nat>)
    requires ValidReceivers(r)
    ensures Distinct(order) && Nodes(order, |r|)
    ensures |BaselevelNodes(r)| <= |order| && order[..|BaselevelNodes(r)|] == BaselevelNodes(r)
    ensures TopoOrdered(r, order)
    ensures forall m :: 0 <= m < |r| ==> (m in order <==> Drains(r, m))
    ensures Forest(r) ==> |order| == |r|
  {
    var idx := BuildDonorIndex(r);
    var base := BaselevelNodes(r);
    order := base;
    ghost var parent: seq<nat> := seq(|base|, k => 0);
    var i := 0;
    DistinctBounded(base, |r|);
    while i < |order|
      invariant |order| <= |r|
      invariant QueueInv(r, base, order, parent, i)
      decreases |r| - i
    {
      var n := order[i];
      assert SliceIs(idx.delta, idx.donors, n, DonorsOf(r, n));
      var ds := Slice(idx, n);
      QueueStep(r, base, order, parent, i);
      order := order + ds;
      parent := parent + seq(|ds|, _ => i);
      i := i + 1;
      DistinctBounded(order, |r|);
    }
    QueueTopoOrdered(r, base, order, parent);
    OrderHoldsDrainingNodes(r, base, order);
    DistinctBounded(order, |r|);
  }

  /** The loop invariant of the queue walk after `i` nodes were taken off:
      no node is queued twice, the baselevel nodes come first, every other
      queued node was appended as a donor of its receiver, taken off earlier,
      and every donor of a node already taken off has been queued. */
  ghost predicate QueueInv(r: seq<nat>, base: seq<nat>, order: seq<nat>, parent: seq<nat>, i: nat)
    requires ValidReceivers(r)
  {
    && i <= |order|
    && Distinct(order) && Nodes(order, |r|)
    && |base| <= |order| && order[..|base|] == base
    && |parent| == |order|
    && (forall k :: |base| <= k < |order| ==>
          parent[k] < i && parent[k] < k && order[parent[k]] == r[order[k]] && r[order[k]] != order[k])
    && (forall j, d :: 0 <= j < i && 0 <= d < |r| && r[d] == order[j] && d != order[j] ==> d in order)
  }

  /** None of the donors of the node taken off the queue is queued yet: a
      queued baselevel node drains into itself, and any other queued node
      drains into a node taken off earlier. */
  lemma DonorsNotQueued(r: seq<nat>, base: seq<nat>, order: seq<nat>, parent: seq<nat>, i: nat)
    requires ValidReceivers(r) && base == BaselevelNodes(r)
    requires QueueInv(r, base, order, parent, i) && i < |order|
    ensures forall k :: 0 <= k < |order| ==> order[k] !in DonorsOf(r, order[i])
  {
    forall k | 0 <= k < |order|
      ensures order[k] !in DonorsOf(r, order[i])
    {
      if k < |base| {
        assert order[..|base|][k] == base[k];
      } else {
        assert parent[k] != i;
      }
    }
  }

  /** Appending values not yet present keeps a sequence free of repeats. */
  lemma AppendDistinct(s: seq<nat>, t: seq<nat>)
    requires Distinct(s) && Distinct(t)
    requires forall k :: 0 <= k < |s| ==> s[k] !in t
    ensures Distinct(s + t)
  {
    forall a, b | 0 <= a < b < |s + t|
      ensures (s + t)[a] != (s + t)[b]
    {
      if a < |s| <= b {
        assert (s + t)[b] in t;
      }
    }
  }

  /** Once the donors of `order[i]` are appended, every donor of the first
      `i + 1` queued nodes is queued. */
  lemma ClosedStep(r: seq<nat>, order: seq<nat>, i: nat)
    requires ValidReceivers(r) && Nodes(order, |r|) && i < |order|
    requires forall j, d :: 0 <= j < i && 0 <= d < |r| && r[d] == order[j] && d != order[j] ==> d in order
    ensures var order' := order + DonorsOf(r, order[i]);
      forall j, d :: 0 <= j < i + 1 && 0 <= d < |r| && r[d] == order'[j] && d != order'[j] ==> d in order'
  {
    var ds := DonorsOf(r, order[i]);
    var order' := order + ds;
    forall j, d | 0 <= j < i + 1 && 0 <= d < |r| && r[d] == order'[j] && d != order'[j]
      ensures d in order'
    {
      assert order'[j] == order[j];
      if j < i {
        assert d in order;
      } else {
        assert d in ds;
      }
    }
  }

  /** Taking node `order[i]` off the queue and appending its donors keeps
      the invariant. */
  lemma QueueStep(r: seq<nat>, base: seq<nat>, order: seq<nat>, parent: seq<nat>, i: nat)
    requires ValidReceivers(r) && base == BaselevelNodes(r)
    requires QueueInv(r, base, order, parent, i) && i < |order|
    ensures QueueInv(r, base, order + DonorsOf(r, order[i]),
                     parent + seq(|DonorsOf(r, order[i])|, _ => i), i + 1)
  {
    var n := order[i];
    var ds := DonorsOf(r, n);
    DonorsNotQueued(r, base, order, parent, i);
    AppendDistinct(order, ds);
    ClosedStep(r, order, i);
    var order', parent' := order + ds, parent + seq(|ds|, _ => i);
    assert order'[..|base|] == order[..|base|];
    assert forall k :: |order| <= k < |order'| ==> order'[k] in ds;
    assert forall k :: |base| <= k < |order'| ==>
        parent'[k] < i + 1 && parent'[k] < k && order'[parent'[k]] == r[order'[k]] && r[order'[k]] != order'[k];
  }

  /** The finished queue lists every node after its receiver. */
  lemma QueueTopoOrdered(r: seq<nat>, base: seq<nat>, order: seq<nat>, parent: seq<nat>)
    requires ValidReceivers(r) && base == BaselevelNodes(r)
    requires QueueInv(r, base, order, parent, |order|)
    ensures TopoOrdered(r, order)
  {
    forall k | 0 <= k < |order|
      ensures r[order[k]] == order[k] || r[order[k]] in order[..k]
    {
      if k < |base| {
        assert order[..|base|][k] == base[k];
      } else {
        assert order[..k][parent[k]] == r[order[k]];
      }
    }
  }

  /** The finished queue: every listed node drains (it comes after its
      receiver), and every draining node is listed (the queue is closed
      under donors and holds every baselevel node). */
  lemma OrderHoldsDrainingNodes(r: seq<nat>, base: seq<nat>, order: seq<nat>)
    requires ValidReceivers(r) && base == BaselevelNodes(r)
    requires Nodes(order, |r|) && |order| <= |r| && TopoOrdered(r, order)
    requires |base| <= |order| && order[..|base|] == base
    requires forall j, d :: 0 <= j < |order| && 0 <= d < |r| && r[d] == order[j] && d != order[j] ==> d in order
    ensures forall m :: 0 <= m < |r| ==> (m in order <==> Drains(r, m))
  {
    assert Closed(r, order) by {
      forall d | 0 <= d < |r| && r[d] != d && r[d] in order
        ensures d in order
      {
        var j :| 0 <= j < |order| && order[j] == r[d];
      }
    }
    forall m | 0 <= m < |r|
      ensures m in order <==> Drains(r, m)
    {
      if m in order {
        var k :| 0 <= k < |order| && order[k] == m;
        TopoDrains(r, order, k, |r|);
      }
      if Drains(r, m) {
        var p := Path(r, m, |r|);
        var b := p[|p| - 1];
        assert b in base;
        var j :| 0 <= j < |base| && base[j] == b;
        assert order[j] == b;
        PathChain(r, m, |r|);
        ClosedHoldsPath(r, order, p, 0);
      }
    }
  }
}
