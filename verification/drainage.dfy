/** A drainage network given by its receiver array: node `i` drains into
    `receivers[i]`, and a node that is its own receiver is a baselevel node
    (a sink or outlet). This module holds the vocabulary every other module
    of the flow-routing core uses: baselevel nodes, the downstream path of a
    node, and the "drains to" relation the accumulation is specified by. */
module Drainage {

  /** Every receiver is a node of the network. */
  predicate ValidReceivers(r: seq<nat>) {
    forall i :: 0 <= i < |r| ==> r[i] < |r|
  }

  predicate IsBase(r: seq<nat>, n: nat)
    requires n < |r|
  {
    r[n] == n
  }

  predicate StrictlyIncreasing(s: seq<nat>) {
    forall a, b :: 0 <= a < b < |s| ==> s[a] < s[b]
  }

  /** The elements of a sequence, as a set. */
  function Elems(s: seq<nat>): set<nat> {
    set x | x in s
  }

  /** No value occurs twice. */
  predicate Distinct(s: seq<nat>) {
    forall a, b :: 0 <= a < b < |s| ==> s[a] != s[b]
  }

  /** Every entry is a node of a network of `n` nodes. */
  predicate Nodes(s: seq<nat>, n: nat) {
    forall k :: 0 <= k < |s| ==> s[k] < n
  }

  /** The nodes `0 .. n - 1`. */
  function Range(n: nat): (s: set<nat>)
    ensures forall x: nat :: x in s <==> x < n
  {
    if n == 0 then {} else Range(n - 1) + {n - 1}
  }

  lemma {:induction false} RangeCard(n: nat)
    ensures |Range(n)| == n
  {
    if n > 0 {
      RangeCard(n - 1);
    }
  }

  /** A sequence without repeats has as many distinct elements as entries. */
  lemma {:induction false} DistinctCard(s: seq<nat>)
    requires Distinct(s)
    ensures |Elems(s)| == |s|
  {
    if |s| > 0 {
      var init, last := s[..|s| - 1], s[|s| - 1];
      DistinctCard(init);
      assert s == init + [last];
      assert Elems(s) == Elems(init) + {last};
      assert last !in Elems(init);
    }
  }

  lemma SubsetCard(a: set<nat>, b: set<nat>)
    requires a <= b
    ensures |a| <= |b|
  {
    assert b == a + (b - a);
  }

  /** Pigeonhole: a sequence of distinct nodes of an `n`-node network has at
      most `n` entries, and exactly `n` when it lists every node. */
  lemma DistinctBounded(s: seq<nat>, n: nat)
    requires Distinct(s) && Nodes(s, n)
    ensures |s| <= n
    ensures (forall m :: 0 <= m < n ==> m in s) ==> |s| == n
  {
    DistinctCard(s);
    RangeCard(n);
    SubsetCard(Elems(s), Range(n));
    if forall m :: 0 <= m < n ==> m in s {
      SubsetCard(Range(n), Elems(s));
    }
  }

  /** The direct donors of `n`: the nodes other than `n` that drain into it. */
  function DonorSet(r: seq<nat>, n: nat): set<nat> {
    set d | 0 <= d < |r| && r[d] == n && d != n
  }

  /** The baselevel nodes below `k`, ascending. */
  function BaselevelBelow(r: seq<nat>, k: nat): (b: seq<nat>)
    requires k <= |r|
    ensures forall n: nat :: n in b <==> n < k && r[n] == n
    ensures StrictlyIncreasing(b)
    ensures forall j :: 0 <= j < |b| ==> b[j] < k
  {
    if k == 0 then []
    else if r[k - 1] == k - 1 then BaselevelBelow(r, k - 1) + [k - 1]
    else BaselevelBelow(r, k - 1)
  }

  /** `np.where(receivers == np.arange(len(receivers)))[0]`. */
  function BaselevelNodes(r: seq<nat>): (b: seq<nat>)
    ensures forall n: nat :: n in b <==> n < |r| && r[n] == n
    ensures StrictlyIncreasing(b)
  {
    BaselevelBelow(r, |r|)
  }

  /** The downstream path from `m`: `m, r[m], r[r[m]], ...`, stopping at a
      baselevel node or after `fuel` steps. */
  function Path(r: seq<nat>, m: nat, fuel: nat): (p: seq<nat>)
    requires ValidReceivers(r) && m < |r|
    ensures 1 <= |p| <= fuel + 1
    ensures p[0] == m
    ensures Nodes(p, |r|)
    ensures r[p[|p| - 1]] == p[|p| - 1] || |p| == fuel + 1
    decreases fuel
  {
    if r[m] == m || fuel == 0 then [m] else [m] + Path(r, r[m], fuel - 1)
  }

  /** Each node of `p` but the last drains into the next one, and none of
      them is baselevel. */
  predicate Chain(r: seq<nat>, p: seq<nat>)
    requires Nodes(p, |r|)
  {
    forall k :: 0 <= k < |p| - 1 ==> r[p[k]] == p[k + 1] && r[p[k]] != p[k]
  }

  /** A downstream path is a chain. */
  lemma {:induction false} PathChain(r: seq<nat>, m: nat, fuel: nat)
    requires ValidReceivers(r) && m < |r|
    ensures Chain(r, Path(r, m, fuel))
    decreases fuel
  {
    if r[m] != m && fuel > 0 {
      PathChain(r, r[m], fuel - 1);
      var p, q := Path(r, m, fuel), Path(r, r[m], fuel - 1);
      assert p == [m] + q;
      forall k | 0 <= k < |p| - 1
        ensures r[p[k]] == p[k + 1] && r[p[k]] != p[k]
      {
        if k > 0 {
          assert p[k] == q[k - 1] && p[k + 1] == q[k];
        } else {
          assert p[1] == q[0];
        }
      }
    }
  }

  /** `m` drains to `x`: `x` lies on the downstream path of `m` (every node
      drains to itself). A path of `|r|` steps is long enough to reach the
      outlet of every node that has one. */
  predicate DrainsTo(r: seq<nat>, m: nat, x: nat)
    requires ValidReceivers(r) && m < |r|
  {
    x in Path(r, m, |r|)
  }

  /** The last node of the downstream path of `m`. */
  function Outlet(r: seq<nat>, m: nat): (o: nat)
    requires ValidReceivers(r) && m < |r|
    ensures o < |r|
  {
    var p := Path(r, m, |r|);
    p[|p| - 1]
  }

  /** `m` reaches a baselevel node by following receivers. */
  predicate Drains(r: seq<nat>, m: nat)
    requires ValidReceivers(r) && m < |r|
  {
    IsBase(r, Outlet(r, m))
  }

  /** The receiver array is an acyclic forest rooted at the baselevel nodes:
      no flow circulates forever. */
  predicate Forest(r: seq<nat>) {
    && ValidReceivers(r)
    && forall m :: 0 <= m < |r| ==> Drains(r, m)
  }

  /** The upstream set of `x`: every node that drains to it, itself included. */
  function UpstreamNodes(r: seq<nat>, x: nat): set<nat>
    requires ValidReceivers(r)
  {
    set m | 0 <= m < |r| && DrainsTo(r, m, x)
  }

  /** A node drains to a baselevel node exactly when that node is its outlet:
      each node of a forest feeds exactly one outlet. */
  lemma DrainsToBaseIsOutlet(r: seq<nat>, m: nat, b: nat)
    requires ValidReceivers(r) && m < |r| && b < |r| && IsBase(r, b)
    ensures DrainsTo(r, m, b) <==> Drains(r, m) && Outlet(r, m) == b
  {
    var p := Path(r, m, |r|);
    PathChain(r, m, |r|);
    if b in p {
      var k :| 0 <= k < |p| && p[k] == b;
      assert r[p[k]] == p[k];
      assert k == |p| - 1;
    }
  }
}
