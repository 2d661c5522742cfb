/** `ChannelProfiler._get_channel_segment`: starting at node `i`, walk
    upstream for as long as exactly one supplying node has a field value
    above the channel threshold; stop where none or several do, and hand the
    several on as the starts of new segments.

    "Supplying nodes" of `j` are `np.where(receivers == j)` with the start
    `i` removed, ascending. That includes `j` itself when `j` is its own
    receiver and is not `i`; the walk never reaches such a node, because it
    only moves from a node to one of its donors. */
module Segments {
  import opened Drainage
  import opened Nesting

  /** The nodes below `k` whose receiver is `j`, other than `i`, ascending. */
  function SupplyingBelow(r: seq<nat>, j: nat, i: nat, k: nat): (s: seq<nat>)
    requires k <= |r|
    ensures forall d: nat :: d in s <==> d < k && r[d] == j && d != i
    ensures StrictlyIncreasing(s)
    ensures Nodes(s, k)
  {
    if k == 0 then []
    else if r[k - 1] == j && k - 1 != i then SupplyingBelow(r, j, i, k - 1) + [k - 1]
    else SupplyingBelow(r, j, i, k - 1)
  }

  function Supplying(r: seq<nat>, j: nat, i: nat): (s: seq<nat>)
    ensures forall d: nat :: d in s <==> d < |r| && r[d] == j && d != i
    ensures StrictlyIncreasing(s) && Nodes(s, |r|)
  {
    SupplyingBelow(r, j, i, |r|)
  }

  /** The supplying nodes below `k` whose field value exceeds the threshold,
      ascending. */
  function QualifyingBelow(r: seq<nat>, field: seq<real>, threshold: real, j: nat, i: nat, k: nat): (s: seq<nat>)
    requires k <= |r| == |field|
    ensures forall d: nat :: d in s <==> d < k && r[d] == j && d != i && field[d] > threshold
    ensures StrictlyIncreasing(s)
    ensures Nodes(s, k)
  {
    if k == 0 then []
    else if r[k - 1] == j && k - 1 != i && field[k - 1] > threshold
    then QualifyingBelow(r, field, threshold, j, i, k - 1) + [k - 1]
    else QualifyingBelow(r, field, threshold, j, i, k - 1)
  }

  /** `supplying_nodes[upstream_vals > threshold]`. */
  function Qualifying(r: seq<nat>, field: seq<real>, threshold: real, j: nat, i: nat): (s: seq<nat>)
    requires |r| == |field|
    ensures forall d: nat :: d in s <==> d in Supplying(r, j, i) && field[d] > threshold
    ensures StrictlyIncreasing(s) && Nodes(s, |r|)
  {
    QualifyingBelow(r, field, threshold, j, i, |r|)
  }

  /** `np.argmax`: the first position of the largest value. */
  function ArgMax(v: seq<real>): (k: nat)
    requires |v| > 0
    ensures k < |v|
    ensures forall m :: 0 <= m < |v| ==> v[m] <= v[k]
    ensures forall m :: 0 <= m < k ==> v[m] < v[k]
  {
    if |v| == 1 then 0
    else
      var k := ArgMax(v[..|v| - 1]);
      assert forall m :: 0 <= m < |v| - 1 ==> v[..|v| - 1][m] == v[m];
      if v[|v| - 1] > v[k] then |v| - 1 else k
  }

  /** The node the walk moves to when one supplying node qualifies: the
      supplying node with the largest field value. */
  function Next(r: seq<nat>, field: seq<real>, threshold: real, j: nat, i: nat): (n: nat)
    requires |r| == |field| && |Qualifying(r, field, threshold, j, i)| == 1
    ensures n == Qualifying(r, field, threshold, j, i)[0]
  {
    var s := Supplying(r, j, i);
    var q := Qualifying(r, field, threshold, j, i)[0];
    assert q in Qualifying(r, field, threshold, j, i);
    var a :| 0 <= a < |s| && s[a] == q;
    var v := seq(|s|, k requires 0 <= k < |s| => field[s[k]]);
    var k := ArgMax(v);
    assert v[a] > threshold;
    assert s[k] in Qualifying(r, field, threshold, j, i);
    s[k]
  }

  /** The node the walk moves to is a donor of `j` other than the start,
      one node deeper than `j`. */
  lemma NextStep(r: seq<nat>, field: seq<real>, threshold: real, i: nat, j: nat)
    requires Forest(r) && |field| == |r| && i < |r| && j < |r|
    requires j == i || r[j] != j
    requires |Qualifying(r, field, threshold, j, i)| == 1
    ensures var n := Next(r, field, threshold, j, i);
      && n < |r| && r[n] == j && n != j && n != i
      && Depth(r, n) == Depth(r, j) + 1
  {
    var n := Next(r, field, threshold, j, i);
    assert n in Qualifying(r, field, threshold, j, i);
    DepthStep(r, n);
  }

  /** Every step of `s` goes to the one qualifying supplying node. */
  predicate Steps(r: seq<nat>, field: seq<real>, threshold: real, i: nat, s: seq<nat>)
    requires |r| == |field|
  {
    forall k :: 0 <= k < |s| - 1 ==>
      Qualifying(r, field, threshold, s[k], i) == [s[k + 1]] && s[k + 1] != s[k]
  }

  /** Each node of `s` after the first is a donor of the one before it. */
  predicate UpChain(r: seq<nat>, s: seq<nat>)
    requires Nodes(s, |r|)
  {
    forall k :: 0 <= k < |s| - 1 ==> r[s[k + 1]] == s[k] && s[k + 1] != s[k]
  }

  /** The upstream walk from `j` of a segment started at `i`: the nodes
      visited, and the nodes to process next. */
  function Walk(r: seq<nat>, field: seq<real>, threshold: real, i: nat, j: nat): (w: (seq<nat>, seq<nat>))
    requires Forest(r) && |field| == |r| && i < |r| && j < |r|
    requires j == i || r[j] != j
    ensures 1 <= |w.0| && w.0[0] == j
    decreases |r| + 1 - Depth(r, j)
  {
    var q := Qualifying(r, field, threshold, j, i);
    if |q| == 1 then
      var next := Next(r, field, threshold, j, i);
      NextStep(r, field, threshold, i, j);
      var rest := Walk(r, field, threshold, i, next);
      ([j] + rest.0, rest.1)
    else ([j], q)
  }

  /** The last node of a non-empty sequence. */
  function Last(s: seq<nat>): nat
    requires |s| > 0
  {
    s[|s| - 1]
  }

  /** A walk that steps on ends where the walk from the next node ends. */
  lemma WalkStepEnd(r: seq<nat>, field: seq<real>, threshold: real, i: nat, j: nat)
    requires Forest(r) && |field| == |r| && i < |r| && j < |r|
    requires j == i || r[j] != j
    requires |Qualifying(r, field, threshold, j, i)| == 1
    ensures var next := Next(r, field, threshold, j, i);
      && next < |r| && r[next] != next
      && Walk(r, field, threshold, i, j).1 == Walk(r, field, threshold, i, next).1
      && Last(Walk(r, field, threshold, i, j).0) == Last(Walk(r, field, threshold, i, next).0)
  {
    var next := Next(r, field, threshold, j, i);
    NextStep(r, field, threshold, i, j);
    var w, rest := Walk(r, field, threshold, i, j), Walk(r, field, threshold, i, next);
    assert w.0 == [j] + rest.0;
  }

  /** The walk ends where none or several supplying nodes qualify, and hands
      on exactly the qualifying ones. */
  lemma {:induction false} WalkEnd(r: seq<nat>, field: seq<real>, threshold: real, i: nat, j: nat)
    requires Forest(r) && |field| == |r| && i < |r| && j < |r|
    requires j == i || r[j] != j
    ensures var w := Walk(r, field, threshold, i, j);
      && Last(w.0) < |r|
      && |Qualifying(r, field, threshold, Last(w.0), i)| != 1
      && w.1 == Qualifying(r, field, threshold, Last(w.0), i)
    decreases |r| + 1 - Depth(r, j)
  {
    var q := Qualifying(r, field, threshold, j, i);
    if |q| == 1 {
      var next := Next(r, field, threshold, j, i);
      NextStep(r, field, threshold, i, j);
      WalkEnd(r, field, threshold, i, next);
      WalkStepEnd(r, field, threshold, i, j);
    }
  }

  /** The walk visits nodes of the network only. */
  lemma {:induction false} WalkNodes(r: seq<nat>, field: seq<real>, threshold: real, i: nat, j: nat)
    requires Forest(r) && |field| == |r| && i < |r| && j < |r|
    requires j == i || r[j] != j
    ensures Nodes(Walk(r, field, threshold, i, j).0, |r|)
    decreases |r| + 1 - Depth(r, j)
  {
    var q := Qualifying(r, field, threshold, j, i);
    if |q| == 1 {
      var next := Next(r, field, threshold, j, i);
      NextStep(r, field, threshold, i, j);
      WalkNodes(r, field, threshold, i, next);
      assert Walk(r, field, threshold, i, j).0 == [j] + Walk(r, field, threshold, i, next).0;
    }
  }

  /** The walk takes only the steps the loop takes. */
  lemma {:induction false} WalkSteps(r: seq<nat>, field: seq<real>, threshold: real, i: nat, j: nat)
    requires Forest(r) && |field| == |r| && i < |r| && j < |r|
    requires j == i || r[j] != j
    ensures Steps(r, field, threshold, i, Walk(r, field, threshold, i, j).0)
    decreases |r| + 1 - Depth(r, j)
  {
    var q := Qualifying(r, field, threshold, j, i);
    if |q| == 1 {
      var next := Next(r, field, threshold, j, i);
      NextStep(r, field, threshold, i, j);
      WalkSteps(r, field, threshold, i, next);
      var w, rest := Walk(r, field, threshold, i, j).0, Walk(r, field, threshold, i, next).0;
      assert w == [j] + rest;
      forall k | 0 <= k < |w| - 1
        ensures Qualifying(r, field, threshold, w[k], i) == [w[k + 1]] && w[k + 1] != w[k]
      {
        if k > 0 {
          assert w[k] == rest[k - 1] && w[k + 1] == rest[k];
        } else {
          assert w[1] == rest[0];
        }
      }
    }
  }

  /** A walk's steps go from a node to a donor of it that qualifies and is
      not the start. */
  lemma StepsChain(r: seq<nat>, field: seq<real>, threshold: real, i: nat, s: seq<nat>)
    requires |field| == |r| && Nodes(s, |r|) && Steps(r, field, threshold, i, s)
    ensures UpChain(r, s)
    ensures forall k :: 1 <= k < |s| ==> field[s[k]] > threshold && s[k] != i
  {
    forall k | 1 <= k < |s|
      ensures r[s[k]] == s[k - 1] && field[s[k]] > threshold && s[k] != i
    {
      assert s[k] in Qualifying(r, field, threshold, s[k - 1], i);
    }
  }

  /** Each node drains to itself. */
  lemma SelfUpstream(r: seq<nat>, m: nat)
    requires ValidReceivers(r) && m < |r|
    ensures m in UpstreamNodes(r, m)
  {
    assert Path(r, m, |r|)[0] == m;
  }

  /** Along an up-chain every node lies one deeper than the one before it,
      and drains, with all it collects, to the first node. */
  lemma {:induction false} ChainUpstream(r: seq<nat>, s: seq<nat>)
    requires Forest(r) && |s| > 0 && Nodes(s, |r|) && UpChain(r, s)
    ensures forall k :: 0 <= k < |s| ==> Depth(r, s[k]) == Depth(r, s[0]) + k
    ensures forall k :: 0 <= k < |s| ==> s[k] in UpstreamNodes(r, s[0])
    ensures forall k :: 0 <= k < |s| ==> UpstreamNodes(r, s[k]) <= UpstreamNodes(r, s[0])
  {
    SelfUpstream(r, s[0]);
    if |s| > 1 {
      var init := s[..|s| - 1];
      assert UpChain(r, init) by {
        forall k | 0 <= k < |init| - 1
          ensures r[init[k + 1]] == init[k] && init[k + 1] != init[k]
        {
          assert init[k] == s[k] && init[k + 1] == s[k + 1];
        }
      }
      ChainUpstream(r, init);
      var n := |s| - 1;
      assert r[s[n]] == s[n - 1] && s[n] != s[n - 1];
      assert init[n - 1] == s[n - 1];
      DepthStep(r, s[n]);
      UpstreamStep(r, s[n]);
      SelfUpstream(r, s[n]);
      SubsetTrans(UpstreamNodes(r, s[n]), UpstreamNodes(r, s[n - 1]), UpstreamNodes(r, s[0]));
      forall k | 0 <= k < n
        ensures Depth(r, s[k]) == Depth(r, s[0]) + k
        ensures s[k] in UpstreamNodes(r, s[0])
        ensures UpstreamNodes(r, s[k]) <= UpstreamNodes(r, s[0])
      {
        assert s[k] == init[k];
      }
    }
  }

  lemma SubsetTrans(a: set<nat>, b: set<nat>, c: set<nat>)
    requires a <= b && b <= c
    ensures a <= c
  {
  }
}
