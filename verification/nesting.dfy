/** Depth in an acyclic drainage network: the number of nodes on the
    downstream path from a node to its outlet. Depth grows by one from a
    node to each of its donors, which makes it the measure that bounds every
    upstream walk, and it shows that upstream sets nest along receivers and
    that distinct donors of one node have disjoint upstream sets. */
module Nesting {
  import opened Drainage

  /** The number of nodes from `m` down to its outlet, both included. */
  function Depth(r: seq<nat>, m: nat): (d: nat)
    requires ValidReceivers(r) && m < |r|
    ensures 1 <= d <= |r| + 1
  {
    |Path(r, m, |r|)|
  }

  /** A path that already ends at a baselevel node does not change when
      given more fuel. */
  lemma {:induction false} PathFuel(r: seq<nat>, m: nat, f: nat)
    requires ValidReceivers(r) && m < |r|
    requires IsBase(r, Path(r, m, f)[|Path(r, m, f)| - 1])
    ensures Path(r, m, f + 1) == Path(r, m, f)
    decreases f
  {
    if r[m] != m {
      var q := Path(r, r[m], f - 1);
      assert Path(r, m, f) == [m] + q;
      assert q[|q| - 1] == Path(r, m, f)[|Path(r, m, f)| - 1];
      PathFuel(r, r[m], f - 1);
      assert Path(r, m, f + 1) == [m] + Path(r, r[m], f);
    }
  }

  /** A donor lies one node deeper than its receiver. */
  lemma DepthStep(r: seq<nat>, d: nat)
    requires Forest(r) && d < |r| && r[d] != d
    ensures Depth(r, d) == Depth(r, r[d]) + 1
  {
    assert Drains(r, d);
    PathFuel(r, r[d], |r| - 1);
  }

  /** Along the downstream path of `m`, depth drops by one per step. */
  lemma {:induction false} PathDepth(r: seq<nat>, m: nat, k: nat)
    requires Forest(r) && m < |r| && k < |Path(r, m, |r|)|
    ensures Depth(r, Path(r, m, |r|)[k]) + k == Depth(r, m)
  {
    if k > 0 {
      var p := Path(r, m, |r|);
      PathDepth(r, m, k - 1);
      PathChain(r, m, |r|);
      DepthStep(r, p[k - 1]);
    }
  }

  /** A node is at least as deep as every node it drains to, and strictly
      deeper than each of them but itself. */
  lemma DrainsDeeper(r: seq<nat>, m: nat, x: nat)
    requires Forest(r) && m < |r| && x < |r|
    ensures DrainsTo(r, m, x) ==> Depth(r, x) <= Depth(r, m)
    ensures DrainsTo(r, m, x) && x != m ==> Depth(r, x) < Depth(r, m)
  {
    var p := Path(r, m, |r|);
    if x in p {
      var k :| 0 <= k < |p| && p[k] == x;
      PathDepth(r, m, k);
    }
  }

  /** What drains to a donor drains to its receiver, and the receiver does
      not drain to its own donor. */
  lemma UpstreamStep(r: seq<nat>, d: nat)
    requires Forest(r) && d < |r| && r[d] != d
    ensures UpstreamNodes(r, d) <= UpstreamNodes(r, r[d])
    ensures r[d] !in UpstreamNodes(r, d)
  {
    forall m | m in UpstreamNodes(r, d)
      ensures m in UpstreamNodes(r, r[d])
    {
      var p := Path(r, m, |r|);
      PathChain(r, m, |r|);
      assert Drains(r, m);
      var k :| 0 <= k < |p| && p[k] == d;
      assert k < |p| - 1;
      assert p[k + 1] == r[d];
    }
    DepthStep(r, d);
    DrainsDeeper(r, r[d], d);
  }

  /** Two distinct donors of one node share no upstream node. */
  lemma DonorsDisjoint(r: seq<nat>, d1: nat, d2: nat)
    requires Forest(r) && d1 < |r| && d2 < |r| && d1 != d2
    requires r[d1] == r[d2] && r[d1] != d1 && r[d2] != d2
    ensures UpstreamNodes(r, d1) * UpstreamNodes(r, d2) == {}
  {
    DepthStep(r, d1);
    DepthStep(r, d2);
    forall m | m in UpstreamNodes(r, d1)
      ensures m !in UpstreamNodes(r, d2)
    {
      var p := Path(r, m, |r|);
      var a :| 0 <= a < |p| && p[a] == d1;
      PathDepth(r, m, a);
      if d2 in p {
        var b :| 0 <= b < |p| && p[b] == d2;
        PathDepth(r, m, b);
      }
    }
  }
}
