/** `ChannelProfiler` (poopy/profiler.py): picks the watershed outlets among
    the sink nodes, then, from each outlet, walks the channel network
    upstream segment by segment, splitting where several donors carry more
    than the channel threshold, and keeps the segments in an ordered
    dictionary per outlet.

    The landlab grid is replaced by what the profiler reads from it: the
    node fields by name, the sink flags and the receiver array. */
module Channels {
  import opened Wrappers
  import opened Drainage
  import opened Nesting
  import opened Segments

  /** What `__init__` keeps: the receivers, the channel definition field,
      the channel threshold and the outlet nodes. */
  datatype ChannelProfiler = ChannelProfiler(
    receivers: seq<nat>,
    field: seq<real>,
    threshold: real,
    outlets: seq<nat>)

  /** The nodes below `k` whose sink flag is set, ascending:
      `grid.nodes.flatten()[flow__sink_flag]`. */
  function SinksBelow(sink: seq<bool>, k: nat): (s: seq<nat>)
    requires k <= |sink|
    ensures forall n: nat :: n in s <==> n < k && sink[n]
    ensures StrictlyIncreasing(s) && Nodes(s, k)
  {
    if k == 0 then []
    else if sink[k - 1] then SinksBelow(sink, k - 1) + [k - 1]
    else SinksBelow(sink, k - 1)
  }

  /** The nodes of `s` in ascending order of their field value. */
  predicate SortedBy(f: seq<real>, s: seq<nat>)
    requires Nodes(s, |f|)
  {
    forall a, b :: 0 <= a < b < |s| ==> f[s[a]] <= f[s[b]]
  }

  lemma StrictlyIncreasingDistinct(s: seq<nat>)
    requires StrictlyIncreasing(s)
    ensures Distinct(s)
  {
  }

  /** A node no larger than every node of a sorted sequence can go first. */
  lemma ConsSorted(f: seq<real>, h: nat, t: seq<nat>)
    requires h < |f| && Nodes(t, |f|) && SortedBy(f, t)
    requires forall k :: 0 <= k < |t| ==> f[h] <= f[t[k]]
    ensures Nodes([h] + t, |f|) && SortedBy(f, [h] + t)
  {
    var s := [h] + t;
    forall a, b | 0 <= a < b < |s|
      ensures f[s[a]] <= f[s[b]]
    {
      assert s[b] == t[b - 1];
      if a > 0 {
        assert s[a] == t[a - 1];
      }
    }
  }

  /** A node no smaller than every node of a sorted sequence can go last. */
  lemma SnocSorted(f: seq<real>, t: seq<nat>, x: nat)
    requires x < |f| && Nodes(t, |f|) && SortedBy(f, t)
    requires forall k :: 0 <= k < |t| ==> f[t[k]] <= f[x]
    ensures Nodes(t + [x], |f|) && SortedBy(f, t + [x])
  {
  }

  /** Inserts `x` into a field-sorted sequence after every node whose value
      does not exceed its own. */
  function InsertBy(f: seq<real>, x: nat, s: seq<nat>): (t: seq<nat>)
    requires x < |f| && Nodes(s, |f|)
    ensures Nodes(t, |f|)
    ensures multiset(t) == multiset(s) + multiset{x}
  {
    if |s| == 0 then [x]
    else if f[x] < f[s[0]] then [x] + s
    else
      assert s == [s[0]] + s[1..];
      [s[0]] + InsertBy(f, x, s[1..])
  }

  /** Insertion keeps a sequence sorted. */
  lemma {:induction false} InsertSorted(f: seq<real>, x: nat, s: seq<nat>)
    requires x < |f| && Nodes(s, |f|) && SortedBy(f, s)
    ensures SortedBy(f, InsertBy(f, x, s))
  {
    if |s| > 0 {
      if f[x] < f[s[0]] {
        ConsSorted(f, x, s);
      } else {
        var rest := InsertBy(f, x, s[1..]);
        InsertSorted(f, x, s[1..]);
        forall k | 0 <= k < |rest|
          ensures f[s[0]] <= f[rest[k]]
        {
          assert rest[k] in multiset(rest);
          assert rest[k] == x || rest[k] in s[1..];
        }
        ConsSorted(f, s[0], rest);
      }
    }
  }

  /** `s[np.argsort(f[s])]`: the nodes of `s` sorted by field value. */
  function SortBy(f: seq<real>, s: seq<nat>): (t: seq<nat>)
    requires Nodes(s, |f|)
    ensures Nodes(t, |f|) && SortedBy(f, t)
    ensures multiset(t) == multiset(s)
  {
    if |s| == 0 then []
    else
      var init := s[..|s| - 1];
      assert s == init + [s[|s| - 1]];
      var t := SortBy(f, init);
      InsertSorted(f, s[|s| - 1], t);
      InsertBy(f, s[|s| - 1], t)
  }

  /** A sequence without repeats has every value at most once. */
  lemma DistinctCount(s: seq<nat>, v: nat)
    requires Distinct(s)
    ensures multiset(s)[v] <= 1
  {
    if |s| > 0 {
      var init := s[..|s| - 1];
      assert s == init + [s[|s| - 1]];
      DistinctCount(init, v);
      if v == s[|s| - 1] {
        assert v !in init;
      }
    }
  }

  /** A value at two positions is counted twice. */
  lemma RepeatCounted(s: seq<nat>, a: nat, b: nat)
    requires a < b < |s|
    ensures s[a] == s[b] ==> multiset(s)[s[a]] >= 2
  {
    assert s == s[..b] + [s[b]] + s[b + 1..];
    assert s[..b][a] == s[a];
    assert s[a] in multiset(s[..b]);
  }

  /** Without repeats, and only then, every value occurs at most once. */
  lemma CountDistinct(s: seq<nat>)
    requires forall v :: multiset(s)[v] <= 1
    ensures Distinct(s)
  {
    forall a, b | 0 <= a < b < |s|
      ensures s[a] != s[b]
    {
      RepeatCounted(s, a, b);
    }
  }

  /** `s[f[s] >= m]`: the nodes of `s` whose value reaches `m`, in order. */
  function AtLeast(f: seq<real>, s: seq<nat>, m: real): (t: seq<nat>)
    requires Nodes(s, |f|)
    ensures Nodes(t, |f|)
    ensures forall v :: v in t <==> v in s && f[v] >= m
    ensures multiset(t) <= multiset(s)
  {
    if |s| == 0 then []
    else
      var init := s[..|s| - 1];
      var last := s[|s| - 1];
      assert s == init + [last];
      var t := AtLeast(f, init, m);
      if f[last] >= m then t + [last] else t
  }

  /** Keeping part of a sorted sequence, in order, keeps it sorted. */
  lemma {:induction false} AtLeastSorted(f: seq<real>, s: seq<nat>, m: real)
    requires Nodes(s, |f|) && SortedBy(f, s)
    ensures SortedBy(f, AtLeast(f, s, m))
  {
    if |s| > 0 {
      var init := s[..|s| - 1];
      var last := s[|s| - 1];
      AtLeastSorted(f, init, m);
      var t := AtLeast(f, init, m);
      if f[last] >= m {
        forall k | 0 <= k < |t|
          ensures f[t[k]] <= f[last]
        {
          assert t[k] in init;
          var a :| 0 <= a < |init| && init[a] == t[k];
          assert s[a] == init[a];
        }
        SnocSorted(f, t, last);
      }
    }
  }

  function Max(a: real, b: real): real {
    if a >= b then a else b
  }

  /** The outlet selection of `__init__`: the sink nodes in ascending field
      order, then those whose value reaches both thresholds. */
  function Outlets(f: seq<real>, sink: seq<bool>, outletThreshold: real, channelThreshold: real): (o: seq<nat>)
    requires |sink| == |f|
    ensures Nodes(o, |f|) && SortedBy(f, o) && Distinct(o)
    ensures forall n :: n in o <==> 0 <= n < |f| && sink[n] && f[n] >= outletThreshold && f[n] >= channelThreshold
  {
    var sinks := SinksBelow(sink, |f|);
    var ordered := SortBy(f, sinks);
    var o := AtLeast(f, ordered, Max(outletThreshold, channelThreshold));
    AtLeastSorted(f, ordered, Max(outletThreshold, channelThreshold));
    forall v
      ensures multiset(o)[v] <= 1
    {
      DistinctCount(sinks, v);
    }
    CountDistinct(o);
    forall v
      ensures v in ordered <==> v in sinks
    {
      assert v in ordered <==> v in multiset(ordered);
    }
    o
  }

  /** No sink node reaches both thresholds. */
  predicate NoOutlet(f: seq<real>, sink: seq<bool>, outletThreshold: real, channelThreshold: real)
    requires |sink| == |f|
  {
    forall n :: 0 <= n < |f| && sink[n] ==> f[n] < outletThreshold || f[n] < channelThreshold
  }

  /** After the filter no outlet falls below either threshold, so the
      selection is empty exactly when no sink reaches both. */
  lemma OutletChecks(f: seq<real>, sink: seq<bool>, outletThreshold: real, channelThreshold: real)
    requires |sink| == |f|
    ensures var o := Outlets(f, sink, outletThreshold, channelThreshold);
      && (forall k :: 0 <= k < |o| ==> f[o[k]] >= outletThreshold && f[o[k]] >= channelThreshold)
      && (|o| == 0 <==> NoOutlet(f, sink, outletThreshold, channelThreshold))
  {
    var o := Outlets(f, sink, outletThreshold, channelThreshold);
    forall k | 0 <= k < |o|
      ensures f[o[k]] >= outletThreshold && f[o[k]] >= channelThreshold
    {
      assert o[k] in o;
    }
    if |o| > 0 {
      assert o[0] in o;
    }
  }

  /** `ChannelProfiler.__init__`: the outlets are the sink nodes whose field
      value reaches both thresholds, in ascending field order. A missing
      field, or no such sink, raises ValueError. The checks of the selected
      values against each threshold can never fire after the filter, so the
      constructor fails exactly in those two cases. */
  function NewProfiler(
    fields: map<string, seq<real>>, name: string, r: seq<nat>, sink: seq<bool>,
    outletThreshold: real, channelThreshold: real): (p: Result<ChannelProfiler>)
    requires |sink| == |r|
    requires forall k :: k in fields ==> |fields[k]| == |r|
    ensures p.Err? <==> name !in fields || NoOutlet(fields[name], sink, outletThreshold, channelThreshold)
    ensures p.Err? ==> p.error == ValueError
    ensures p.Ok? ==> p.value.receivers == r && p.value.field == fields[name]
    ensures p.Ok? ==> p.value.threshold == channelThreshold
    ensures p.Ok? ==> Nodes(p.value.outlets, |r|) && Distinct(p.value.outlets)
    ensures p.Ok? ==> SortedBy(p.value.field, p.value.outlets)
    ensures p.Ok? ==> forall n :: n in p.value.outlets <==>
      0 <= n < |r| && sink[n] && fields[name][n] >= outletThreshold && fields[name][n] >= channelThreshold
  {
    if name !in fields then Err(ValueError)
    else
      var f := fields[name];
      var outlets := Outlets(f, sink, outletThreshold, channelThreshold);
      var bad := |outlets| == 0
        || (exists k :: 0 <= k < |outlets| && f[outlets[k]] < outletThreshold)
        || (exists k :: 0 <= k < |outlets| && f[outlets[k]] < channelThreshold);
      OutletChecks(f, sink, outletThreshold, channelThreshold);
      if bad then Err(ValueError)
      else Ok(ChannelProfiler(r, f, channelThreshold, outlets))
  }

  /** The receivers form an acyclic forest and the field covers every node:
      what the segment walk needs. */
  predicate Ready(p: ChannelProfiler) {
    Forest(p.receivers) && |p.field| == |p.receivers|
  }

  /** The nodes a segment started at `i` walks through, from `i` upstream. */
  function Course(p: ChannelProfiler, i: nat): (c: seq<nat>)
    requires Ready(p) && i < |p.receivers|
    ensures |c| >= 1 && c[0] == i
  {
    Walk(p.receivers, p.field, p.threshold, i, i).0
  }

  /** A channel segment, downstream to upstream, and the nodes to start new
      segments from. */
  datatype Segment = Segment(ids: seq<nat>, toProcess: seq<nat>)

  /** `_get_channel_segment(i)`: the receiver of `i` first, when `i` is not
      its own receiver and not an outlet, then the course of the walk. */
  function ChannelSegment(p: ChannelProfiler, i: nat): (s: Segment)
    requires Ready(p) && i < |p.receivers|
    ensures |s.ids| >= 1 && Nodes(s.toProcess, |p.receivers|)
  {
    var r := p.receivers;
    var w := Walk(r, p.field, p.threshold, i, i);
    WalkEnd(r, p.field, p.threshold, i, i);
    var head := if r[i] != i && i !in p.outlets then [r[i]] else [];
    Segment(head + w.0, w.1)
  }

  /** The segment ends where its course ends. */
  lemma SegmentLast(p: ChannelProfiler, i: nat)
    requires Ready(p) && i < |p.receivers|
    ensures Last(ChannelSegment(p, i).ids) == Last(Course(p, i))
  {
    var c := Course(p, i);
    var ids := ChannelSegment(p, i).ids;
    assert ids[|ids| - 1] == c[|c| - 1];
  }

  /** The segment starts with the receiver of `i` exactly when `i` is
      neither a baselevel node nor an outlet, and `i` comes right after. */
  lemma SegmentHead(p: ChannelProfiler, i: nat)
    requires Ready(p) && i < |p.receivers|
    ensures var ids := ChannelSegment(p, i).ids;
      && (ids[0] == i <==> p.receivers[i] == i || i in p.outlets)
      && (ids[0] != i ==> |ids| >= 2 && ids[0] == p.receivers[i] && ids[1] == i)
  {
  }

  /** The course of the walk from `i`: every step goes to the one donor
      that carries more than the threshold, is not the start and was the
      only qualifying one. */
  lemma CourseSteps(p: ChannelProfiler, i: nat)
    requires Ready(p) && i < |p.receivers|
    ensures var c := Course(p, i);
      && Nodes(c, |p.receivers|)
      && Steps(p.receivers, p.field, p.threshold, i, c)
      && UpChain(p.receivers, c)
      && forall k :: 1 <= k < |c| ==> p.field[c[k]] > p.threshold && c[k] != i
  {
    var r := p.receivers;
    WalkNodes(r, p.field, p.threshold, i, i);
    WalkSteps(r, p.field, p.threshold, i, i);
    StepsChain(r, p.field, p.threshold, i, Course(p, i));
  }

  /** Every segment is a chain: each node after the first drains into the
      one before it. */
  lemma SegmentChain(p: ChannelProfiler, i: nat)
    requires Ready(p) && i < |p.receivers|
    ensures var ids := ChannelSegment(p, i).ids;
      Nodes(ids, |p.receivers|) && UpChain(p.receivers, ids)
  {
    var r := p.receivers;
    var c := Course(p, i);
    CourseSteps(p, i);
    var ids := ChannelSegment(p, i).ids;
    if ids[0] != i {
      ConsChain(r, c, r[i]);
    }
  }

  /** A receiver in front of an up-chain from a non-baselevel node extends
      it. */
  lemma ConsChain(r: seq<nat>, c: seq<nat>, h: nat)
    requires |c| > 0 && Nodes(c, |r|) && UpChain(r, c) && h < |r| && r[c[0]] == h && h != c[0]
    ensures Nodes([h] + c, |r|) && UpChain(r, [h] + c)
  {
    var ids := [h] + c;
    forall k | 0 <= k < |ids| - 1
      ensures r[ids[k + 1]] == ids[k] && ids[k + 1] != ids[k]
    {
      if k > 0 {
        assert ids[k] == c[k - 1] && ids[k + 1] == c[k];
      }
    }
  }

  /** The segment ends where no donor of its last node, or several, carry
      more than the threshold (the start excluded), and hands on exactly
      those donors, in ascending node order. */
  lemma SegmentEnd(p: ChannelProfiler, i: nat)
    requires Ready(p) && i < |p.receivers|
    ensures var s := ChannelSegment(p, i);
      && Last(s.ids) < |p.receivers|
      && s.toProcess == Qualifying(p.receivers, p.field, p.threshold, Last(s.ids), i)
      && |s.toProcess| != 1
  {
    WalkEnd(p.receivers, p.field, p.threshold, i, i);
    SegmentLast(p, i);
  }

  /** Where a course lies: upstream of its start, each node deeper than the
      last one, and the last node is the start or not a baselevel node. */
  lemma CourseFacts(p: ChannelProfiler, i: nat)
    requires Ready(p) && i < |p.receivers|
    ensures var r, c := p.receivers, Course(p, i);
      && Nodes(c, |r|)
      && (forall k :: 0 <= k < |c| ==> c[k] in UpstreamNodes(r, i))
      && (forall k :: 0 <= k < |c| ==> Depth(r, c[k]) <= Depth(r, Last(c)))
      && UpstreamNodes(r, Last(c)) <= UpstreamNodes(r, i)
      && (Last(c) == i || r[Last(c)] != Last(c))
  {
    var r, c := p.receivers, Course(p, i);
    CourseSteps(p, i);
    ChainUpstream(r, c);
    if |c| > 1 {
      assert r[c[|c| - 1]] == c[|c| - 2] && c[|c| - 1] != c[|c| - 2];
    }
  }

  /** The nodes handed on by the segment from `i` drain into its last node,
      are not baselevel nodes, and carry everything upstream of them into
      the upstream set of `i`, apart from the course itself. */
  lemma HandedOn(p: ChannelProfiler, i: nat, d: nat)
    requires Ready(p) && i < |p.receivers|
    requires d in ChannelSegment(p, i).toProcess
    ensures var r, c := p.receivers, Course(p, i);
      && d < |r| && r[d] == Last(c) && r[d] != d && d != i
      && UpstreamNodes(r, d) <= UpstreamNodes(r, i)
      && UpstreamNodes(r, d) * Elems(c) == {}
  {
    var r, c := p.receivers, Course(p, i);
    SegmentEnd(p, i);
    CourseFacts(p, i);
    var l := Last(c);
    assert d in Qualifying(r, p.field, p.threshold, l, i);
    UpstreamStep(r, d);
    SubsetTrans(UpstreamNodes(r, d), UpstreamNodes(r, l), UpstreamNodes(r, i));
    DepthStep(r, d);
    forall m | m in UpstreamNodes(r, d)
      ensures m !in Elems(c)
    {
      DrainsDeeper(r, m, d);
    }
  }

  /** The nodes handed on by the segments from the nodes of `s`, in order. */
  function Pushed(p: ChannelProfiler, s: seq<nat>): (q: seq<nat>)
    requires Ready(p) && Nodes(s, |p.receivers|)
    ensures Nodes(q, |p.receivers|)
  {
    if |s| == 0 then []
    else Pushed(p, s[..|s| - 1]) + ChannelSegment(p, s[|s| - 1]).toProcess
  }

  /** The nodes the courses of the segments from `s` walked through. */
  function Visited(p: ChannelProfiler, s: seq<nat>): set<nat>
    requires Ready(p) && Nodes(s, |p.receivers|)
  {
    if |s| == 0 then {}
    else Visited(p, s[..|s| - 1]) + Elems(Course(p, s[|s| - 1]))
  }

  /** Every course of a segment from `s` is part of what `s` visited. */
  lemma {:induction false} CourseVisited(p: ChannelProfiler, s: seq<nat>)
    requires Ready(p) && Nodes(s, |p.receivers|)
    ensures forall k :: 0 <= k < |s| ==> Elems(Course(p, s[k])) <= Visited(p, s)
  {
    if |s| > 0 {
      var init := s[..|s| - 1];
      CourseVisited(p, init);
      forall k | 0 <= k < |s| - 1
        ensures Elems(Course(p, s[k])) <= Visited(p, s)
      {
        assert s[k] == init[k];
      }
    }
  }

  /** The ordered-dictionary key of a segment: its first and last node. */
  function SegmentKey(s: Segment): (nat, nat)
    requires |s.ids| >= 1
  {
    (s.ids[0], Last(s.ids))
  }

  /** The ordered-dictionary entry the segment from `i` produces. */
  function Entry(p: ChannelProfiler, i: nat): ((nat, nat), seq<nat>)
    requires Ready(p) && i < |p.receivers|
  {
    var s := ChannelSegment(p, i);
    (SegmentKey(s), s.ids)
  }

  /** An ordered dictionary, as its entries in insertion order. */
  predicate KeyIn<K(==), V>(d: seq<(K, V)>, k: K) {
    exists a :: 0 <= a < |d| && d[a].0 == k
  }

  /** `d[k] = v` on an ordered dictionary: a present key keeps its place and
      takes the new value, an absent one is appended. */
  function Put<K(==), V>(d: seq<(K, V)>, k: K, v: V): (e: seq<(K, V)>)
  {
    if KeyIn(d, k) then seq(|d|, a requires 0 <= a < |d| => if d[a].0 == k then (k, v) else d[a])
    else d + [(k, v)]
  }

  /** The value an ordered dictionary holds for a present key. */
  function Get<K(==), V>(d: seq<(K, V)>, k: K): (v: V)
    requires KeyIn(d, k)
    ensures exists a :: 0 <= a < |d| && d[a].0 == k && d[a].1 == v
  {
    if d[0].0 == k then d[0].1
    else
      assert KeyIn(d[1..], k) by {
        var a :| 0 <= a < |d| && d[a].0 == k;
        assert d[1..][a - 1].0 == k;
      }
      var v := Get(d[1..], k);
      assert forall a :: 0 <= a < |d[1..]| ==> d[1..][a] == d[a + 1];
      v
  }

  /** The keys of an ordered dictionary are distinct. */
  predicate UniqueKeys<K(==), V>(d: seq<(K, V)>) {
    forall a, b :: 0 <= a < b < |d| ==> d[a].0 != d[b].0
  }

  /** `Put` keeps the keys distinct and adds an entry exactly when the key
      was absent. */
  lemma PutKeys<K, V>(d: seq<(K, V)>, k: K, v: V)
    requires UniqueKeys(d)
    ensures UniqueKeys(Put(d, k, v))
    ensures |Put(d, k, v)| == if KeyIn(d, k) then |d| else |d| + 1
  {
  }

  /** An absent key is appended. */
  lemma PutFresh<K, V>(d: seq<(K, V)>, k: K, v: V)
    requires !KeyIn(d, k)
    ensures Put(d, k, v) == d + [(k, v)]
  {
  }

  /** After `d[k] = v` the key is present and holds `v`. */
  lemma PutGet<K, V>(d: seq<(K, V)>, k: K, v: V)
    requires UniqueKeys(d)
    ensures KeyIn(Put(d, k, v), k) && Get(Put(d, k, v), k) == v
  {
    PutKeys(d, k, v);
    var e := Put(d, k, v);
    if KeyIn(d, k) {
      var a :| 0 <= a < |d| && d[a].0 == k;
      assert e[a].0 == k;
    } else {
      assert e[|d|].0 == k;
    }
  }

  /** After `d[k] = v` every other key is present as before, holding what
      it held. */
  lemma PutOther<K, V>(d: seq<(K, V)>, k: K, v: V, k2: K)
    requires UniqueKeys(d) && k2 != k
    ensures KeyIn(Put(d, k, v), k2) <==> KeyIn(d, k2)
    ensures KeyIn(d, k2) ==> Get(Put(d, k, v), k2) == Get(d, k2)
  {
    PutKeys(d, k, v);
    var e := Put(d, k, v);
    if KeyIn(d, k2) {
      var b :| 0 <= b < |d| && d[b].0 == k2;
      assert e[b] == d[b];
    }
    if KeyIn(e, k2) {
      var b :| 0 <= b < |e| && e[b].0 == k2;
      assert b < |d| && d[b] == e[b];
    }
  }

  /** The entries of the segments started from `s`, in order. */
  function Entries(p: ChannelProfiler, s: seq<nat>): (e: seq<((nat, nat), seq<nat>)>)
    requires Ready(p) && Nodes(s, |p.receivers|)
    ensures |e| == |s|
  {
    seq(|s|, k requires 0 <= k < |s| => Entry(p, s[k]))
  }

  /** The loop's nodes are nodes of the network. */
  predicate InRange(p: ChannelProfiler, o: nat, starts: seq<nat>, queue: seq<nat>) {
    o < |p.receivers| && Nodes(starts, |p.receivers|) && Nodes(queue, |p.receivers|)
  }

  /** The queue loop of `_create_profile_structure` for outlet `o` has
      popped `starts` and holds `queue`: everything pushed so far was popped
      or waits, in push order. */
  predicate Fifo(p: ChannelProfiler, o: nat, starts: seq<nat>, queue: seq<nat>)
    requires Ready(p) && InRange(p, o, starts, queue)
  {
    starts + queue == [o] + Pushed(p, starts)
  }

  /** The popped nodes are distinct, and their courses lie upstream of the
      outlet and share no node. */
  predicate Walked(p: ChannelProfiler, o: nat, starts: seq<nat>)
    requires Ready(p) && o < |p.receivers| && Nodes(starts, |p.receivers|)
  {
    && Distinct(starts)
    && Visited(p, starts) <= UpstreamNodes(p.receivers, o)
    && forall a, b :: 0 <= a < b < |starts| ==> Elems(Course(p, starts[a])) * Elems(Course(p, starts[b])) == {}
  }

  /** Each waiting node's upstream set lies upstream of the outlet and
      shares nothing with what was visited or with another waiting node's. */
  predicate Waiting(p: ChannelProfiler, o: nat, starts: seq<nat>, queue: seq<nat>)
    requires Ready(p) && InRange(p, o, starts, queue)
  {
    var r := p.receivers;
    && (forall a :: 0 <= a < |queue| ==> UpstreamNodes(r, queue[a]) <= UpstreamNodes(r, o))
    && (forall a :: 0 <= a < |queue| ==> UpstreamNodes(r, queue[a]) * Visited(p, starts) == {})
    && (forall a, b :: 0 <= a < b < |queue| ==> UpstreamNodes(r, queue[a]) * UpstreamNodes(r, queue[b]) == {})
  }

  /** Members of sets that lie in disjoint sets differ. */
  lemma Apart(a: set<nat>, b: set<nat>, c: set<nat>, y: nat, z: nat)
    requires a <= b && b * c == {} && y in a && z in c
    ensures y != z
  {
    assert y in b;
    assert y !in b * c;
  }

  /** Indexing into a concatenation. */
  lemma AppendIndex(u: seq<nat>, t: seq<nat>, a: nat)
    requires a < |u| + |t|
    ensures a < |u| ==> (u + t)[a] == u[a]
    ensures a >= |u| ==> (u + t)[a] == t[a - |u|]
  {
  }

  lemma DisjointSub(a: set<nat>, b: set<nat>, c: set<nat>)
    requires a <= b && b * c == {}
    ensures a * c == {}
  {
  }

  /** Popping the head of `a + q` and appending `t` shifts one node over. */
  lemma Shift(a: seq<nat>, q: seq<nat>, t: seq<nat>, b: seq<nat>)
    requires |q| > 0 && a + q == b
    ensures (a + [q[0]]) + (q[1..] + t) == b + t
  {
    assert q == [q[0]] + q[1..];
  }

  /** One more start appends what its segment hands on. */
  lemma PushedSnoc(p: ChannelProfiler, s: seq<nat>, x: nat)
    requires Ready(p) && Nodes(s, |p.receivers|) && x < |p.receivers|
    ensures Nodes(s + [x], |p.receivers|)
    ensures Pushed(p, s + [x]) == Pushed(p, s) + ChannelSegment(p, x).toProcess
    ensures Visited(p, s + [x]) == Visited(p, s) + Elems(Course(p, x))
  {
    assert (s + [x])[..|s|] == s;
  }

  /** The step keeps the nodes in range and the FIFO order. */
  lemma StepFifo(p: ChannelProfiler, o: nat, starts: seq<nat>, queue: seq<nat>)
    requires Ready(p) && InRange(p, o, starts, queue) && Fifo(p, o, starts, queue) && |queue| > 0
    ensures InRange(p, o, starts + [queue[0]], queue[1..] + ChannelSegment(p, queue[0]).toProcess)
    ensures Fifo(p, o, starts + [queue[0]], queue[1..] + ChannelSegment(p, queue[0]).toProcess)
  {
    var x := queue[0];
    var t := ChannelSegment(p, x).toProcess;
    var pushed := Pushed(p, starts);
    PushedSnoc(p, starts, x);
    Shift(starts, queue, t, [o] + pushed);
    Assoc([o], pushed, t);
  }

  lemma Assoc(a: seq<nat>, b: seq<nat>, c: seq<nat>)
    ensures (a + b) + c == a + (b + c)
  {
  }

  /** The node at the head of the queue was not popped before, and its
      course shares no node, in particular not its last one, with an earlier
      course. */
  lemma NewCourse(p: ChannelProfiler, o: nat, starts: seq<nat>, queue: seq<nat>)
    requires Ready(p) && InRange(p, o, starts, queue) && |queue| > 0
    requires Waiting(p, o, starts, queue)
    ensures Elems(Course(p, queue[0])) <= UpstreamNodes(p.receivers, queue[0])
    ensures forall k :: 0 <= k < |starts| ==>
      && starts[k] != queue[0]
      && Elems(Course(p, starts[k])) * Elems(Course(p, queue[0])) == {}
      && Last(Course(p, starts[k])) != Last(Course(p, queue[0]))
  {
    var r, x := p.receivers, queue[0];
    var cx := Course(p, x);
    var c := Elems(cx);
    var up := UpstreamNodes(r, x);
    var v := Visited(p, starts);
    CourseFacts(p, x);
    CourseVisited(p, starts);
    SelfUpstream(r, x);
    assert up * v == {};
    assert Last(cx) in c;
    assert c <= up;
    forall k | 0 <= k < |starts|
      ensures starts[k] != x
      ensures Elems(Course(p, starts[k])) * c == {}
      ensures Last(Course(p, starts[k])) != Last(cx)
    {
      var ck := Course(p, starts[k]);
      var ek := Elems(ck);
      assert ck[0] in ek && Last(ck) in ek;
      assert ek <= v;
      Apart(ek, v, up, starts[k], x);
      DisjointSub(c, up, v);
      Apart(ek, v, c, Last(ck), Last(cx));
    }
  }

  /** After the step the popped nodes are still distinct and their courses
      still lie upstream of the outlet, apart from each other. */
  lemma StepWalked(p: ChannelProfiler, o: nat, starts: seq<nat>, queue: seq<nat>)
    requires Ready(p) && InRange(p, o, starts, queue) && |queue| > 0
    requires Walked(p, o, starts) && Waiting(p, o, starts, queue)
    ensures |starts| < |p.receivers|
    ensures Nodes(starts + [queue[0]], |p.receivers|) && Walked(p, o, starts + [queue[0]])
  {
    var r, x := p.receivers, queue[0];
    var s := starts + [x];
    var c := Elems(Course(p, x));
    PushedSnoc(p, starts, x);
    NewCourse(p, o, starts, queue);
    assert Distinct(s);
    DistinctBounded(s, |r|);
    SubsetTrans(c, UpstreamNodes(r, x), UpstreamNodes(r, o));
    forall a, b | 0 <= a < b < |s|
      ensures Elems(Course(p, s[a])) * Elems(Course(p, s[b])) == {}
    {
      assert s[a] == starts[a];
      if b < |starts| {
        assert s[b] == starts[b];
      } else {
        assert s[b] == x;
      }
    }
  }

  /** After the step each waiting node's upstream set lies upstream of the
      outlet and apart from what was visited; those of the rest of the queue
      are apart from the popped node's, those handed on lie inside it. */
  lemma StepWaitingEach(p: ChannelProfiler, o: nat, starts: seq<nat>, queue: seq<nat>)
    requires Ready(p) && InRange(p, o, starts, queue) && |queue| > 0
    requires Waiting(p, o, starts, queue)
    ensures var q := queue[1..] + ChannelSegment(p, queue[0]).toProcess;
      forall a :: 0 <= a < |q| ==>
        && q[a] < |p.receivers|
        && UpstreamNodes(p.receivers, q[a]) <= UpstreamNodes(p.receivers, o)
        && UpstreamNodes(p.receivers, q[a]) * (Visited(p, starts) + Elems(Course(p, queue[0]))) == {}
        && (a >= |queue| - 1 ==> UpstreamNodes(p.receivers, q[a]) <= UpstreamNodes(p.receivers, queue[0]))
        && (a < |queue| - 1 ==> UpstreamNodes(p.receivers, q[a]) * UpstreamNodes(p.receivers, queue[0]) == {})
  {
    var r, x := p.receivers, queue[0];
    var t := ChannelSegment(p, x).toProcess;
    var q := queue[1..] + t;
    var up := UpstreamNodes(r, x);
    CourseFacts(p, x);
    var c := Elems(Course(p, x));
    var v := Visited(p, starts);
    assert up <= UpstreamNodes(r, o);
    assert up * v == {};
    forall a | 0 <= a < |q|
      ensures q[a] < |r|
      ensures UpstreamNodes(r, q[a]) <= UpstreamNodes(r, o)
      ensures UpstreamNodes(r, q[a]) * (v + c) == {}
      ensures a >= |queue| - 1 ==> UpstreamNodes(r, q[a]) <= up
      ensures a < |queue| - 1 ==> UpstreamNodes(r, q[a]) * up == {}
    {
      AppendIndex(queue[1..], t, a);
      if a < |queue| - 1 {
        assert q[a] == queue[a + 1];
        DisjointSub(c, up, UpstreamNodes(r, q[a]));
      } else {
        HandedOn(p, x, q[a]);
        SubsetTrans(UpstreamNodes(r, q[a]), up, UpstreamNodes(r, o));
        DisjointSub(UpstreamNodes(r, q[a]), up, v);
      }
    }
  }

  /** After the step the waiting nodes' upstream sets are pairwise apart. */
  lemma StepWaitingPairs(p: ChannelProfiler, o: nat, starts: seq<nat>, queue: seq<nat>)
    requires Ready(p) && InRange(p, o, starts, queue) && |queue| > 0
    requires Waiting(p, o, starts, queue)
    ensures var q := queue[1..] + ChannelSegment(p, queue[0]).toProcess;
      forall a, b :: 0 <= a < b < |q| ==> UpstreamNodes(p.receivers, q[a]) * UpstreamNodes(p.receivers, q[b]) == {}
  {
    var r, x := p.receivers, queue[0];
    var t := ChannelSegment(p, x).toProcess;
    var q := queue[1..] + t;
    var up := UpstreamNodes(r, x);
    StepWaitingEach(p, o, starts, queue);
    SegmentEnd(p, x);
    forall a, b | 0 <= a < b < |q|
      ensures UpstreamNodes(r, q[a]) * UpstreamNodes(r, q[b]) == {}
    {
      AppendIndex(queue[1..], t, a);
      AppendIndex(queue[1..], t, b);
      if b < |queue| - 1 {
        assert q[a] == queue[a + 1] && q[b] == queue[b + 1];
      } else if a < |queue| - 1 {
        DisjointSub(UpstreamNodes(r, q[b]), up, UpstreamNodes(r, q[a]));
      } else {
        HandedOn(p, x, q[a]);
        HandedOn(p, x, q[b]);
        DonorsDisjoint(r, q[a], q[b]);
      }
    }
  }

  lemma StepWaiting(p: ChannelProfiler, o: nat, starts: seq<nat>, queue: seq<nat>)
    requires Ready(p) && InRange(p, o, starts, queue) && |queue| > 0
    requires Waiting(p, o, starts, queue)
    ensures InRange(p, o, starts + [queue[0]], queue[1..] + ChannelSegment(p, queue[0]).toProcess)
    ensures Waiting(p, o, starts + [queue[0]], queue[1..] + ChannelSegment(p, queue[0]).toProcess)
  {
    PushedSnoc(p, starts, queue[0]);
    StepWaitingEach(p, o, starts, queue);
    StepWaitingPairs(p, o, starts, queue);
  }

  /** The entry of a segment whose last node ends no earlier segment gets a
      key of its own and is appended. */
  lemma NewEntry(p: ChannelProfiler, starts: seq<nat>, x: nat)
    requires Ready(p) && Nodes(starts, |p.receivers|) && x < |p.receivers|
    requires UniqueKeys(Entries(p, starts))
    requires forall k :: 0 <= k < |starts| ==> Last(Course(p, starts[k])) != Last(Course(p, x))
    ensures var seg := ChannelSegment(p, x);
      && Put(Entries(p, starts), SegmentKey(seg), seg.ids) == Entries(p, starts + [x])
      && UniqueKeys(Entries(p, starts + [x]))
  {
    var net := Entries(p, starts);
    var seg := ChannelSegment(p, x);
    var key := SegmentKey(seg);
    assert !KeyIn(net, key) by {
      forall a | 0 <= a < |net|
        ensures net[a].0 != key
      {
        SegmentLast(p, starts[a]);
        assert net[a].0.1 == Last(Course(p, starts[a]));
      }
    }
    PutKeys(net, key, seg.ids);
    assert Entries(p, starts + [x]) == net + [(key, seg.ids)];
  }

  /** `_create_profile_structure` for one outlet: segments from the outlet
      are taken from a FIFO queue, each handing on the starts of the next
      ones, and stored under their (first, last) key. On an acyclic network
      every node enters the queue at most once, every start drains to the
      outlet, the courses of the segments share no node and no segment
      overwrites another: the dictionary holds one entry per start, in
      processing order. */
  method ChannelNetwork(p: ChannelProfiler, o: nat) returns (net: seq<((nat, nat), seq<nat>)>, starts: seq<nat>)
    requires Ready(p) && o < |p.receivers|
    ensures Nodes(starts, |p.receivers|) && starts == [o] + Pushed(p, starts)
    ensures Distinct(starts)
    ensures forall k :: 0 <= k < |starts| ==> starts[k] in UpstreamNodes(p.receivers, o)
    ensures forall a, b :: 0 <= a < b < |starts| ==> Elems(Course(p, starts[a])) * Elems(Course(p, starts[b])) == {}
    ensures net == Entries(p, starts) && UniqueKeys(net)
  {
    var queue := [o];
    starts := [];
    net := [];
    SelfUpstream(p.receivers, o);
    while |queue| > 0
      invariant InRange(p, o, starts, queue) && Fifo(p, o, starts, queue)
      invariant Walked(p, o, starts) && Waiting(p, o, starts, queue)
      invariant net == Entries(p, starts) && UniqueKeys(net)
      decreases |p.receivers| - |starts|
    {
      var x := queue[0];
      var seg := ChannelSegment(p, x);
      StepFifo(p, o, starts, queue);
      StepWalked(p, o, starts, queue);
      StepWaiting(p, o, starts, queue);
      NewCourse(p, o, starts, queue);
      var key := SegmentKey(seg);
      NewEntry(p, starts, x);
      net := Put(net, key, seg.ids);
      starts := starts + [x];
      queue := queue[1..] + seg.toProcess;
    }
    CourseVisited(p, starts);
    forall k | 0 <= k < |starts|
      ensures starts[k] in UpstreamNodes(p.receivers, o)
    {
      assert starts[k] == Course(p, starts[k])[0];
    }
  }

  /** `net` is what the queue loop builds for outlet `o`: the entries of
      the segments from a FIFO order of distinct starts. */
  ghost predicate IsNetwork(p: ChannelProfiler, o: nat, net: seq<((nat, nat), seq<nat>)>)
    requires Ready(p)
  {
    exists s :: FifoOrder(p, o, s) && net == Entries(p, s)
  }

  /** `s` lists distinct nodes, the outlet `o` first and then every node
      the segments from `s` hand on, in the order they are handed on. */
  predicate FifoOrder(p: ChannelProfiler, o: nat, s: seq<nat>)
    requires Ready(p)
  {
    Nodes(s, |p.receivers|) && s == [o] + Pushed(p, s) && Distinct(s)
  }

  /** The segment node lists of one outlet's dictionary, in its order. */
  function Ids(net: seq<((nat, nat), seq<nat>)>): (ids: seq<seq<nat>>)
    ensures |ids| == |net| && forall k :: 0 <= k < |net| ==> ids[k] == net[k].1
  {
    seq(|net|, k requires 0 <= k < |net| => net[k].1)
  }

  /** The segment node lists of every outlet, outlet by outlet. */
  function Flatten(st: seq<(nat, seq<((nat, nat), seq<nat>)>)>): seq<seq<nat>> {
    if |st| == 0 then [] else Flatten(st[..|st| - 1]) + Ids(st[|st| - 1].1)
  }

  /** In the flat list the segments of outlet `a` follow those of the
      outlets before it, in their dictionary order. */
  lemma {:induction false} FlattenIndex(st: seq<(nat, seq<((nat, nat), seq<nat>)>)>, a: nat, k: nat)
    requires a < |st| && k < |st[a].1|
    ensures |Flatten(st[..a])| + k < |Flatten(st)|
    ensures Flatten(st)[|Flatten(st[..a])| + k] == st[a].1[k].1
    decreases |st|
  {
    var init := st[..|st| - 1];
    if a == |st| - 1 {
      assert st[..a] == init;
    } else {
      assert init[..a] == st[..a];
      FlattenIndex(init, a, k);
    }
  }

  /** `_create_flat_structures`: the node lists of all segments, outlet by
      outlet and then in each outlet's dictionary order. */
  method FlatStructures(st: seq<(nat, seq<((nat, nat), seq<nat>)>)>) returns (nodes: seq<seq<nat>>)
    ensures nodes == Flatten(st)
  {
    nodes := [];
    var a := 0;
    while a < |st|
      invariant 0 <= a <= |st| && nodes == Flatten(st[..a])
    {
      var net := st[a].1;
      var k := 0;
      ghost var before := nodes;
      while k < |net|
        invariant 0 <= k <= |net| && nodes == before + Ids(net[..k])
      {
        assert Ids(net[..k + 1]) == Ids(net[..k]) + [net[k].1];
        nodes := nodes + [net[k].1];
        k := k + 1;
      }
      assert net[..k] == net;
      assert st[..a + 1][..a] == st[..a];
      a := a + 1;
    }
    assert st[..a] == st;
  }

  /** The dictionary the queue loop builds for one outlet, with the order
      it processed the starts in. */
  method OutletNetwork(p: ChannelProfiler, o: nat) returns (net: seq<((nat, nat), seq<nat>)>, ghost starts: seq<nat>)
    requires Ready(p) && o < |p.receivers|
    ensures FifoOrder(p, o, starts) && net == Entries(p, starts)
  {
    net, starts := ChannelNetwork(p, o);
  }

  /** The first `|st|` outlets, each under its key with the dictionary of
      the segments from the FIFO order `orders` holds for it. */
  ghost predicate Stored(p: ChannelProfiler, st: seq<(nat, seq<((nat, nat), seq<nat>)>)>, orders: seq<seq<nat>>)
    requires Ready(p)
  {
    && |orders| == |st| <= |p.outlets|
    && forall b :: 0 <= b < |st| ==>
      && st[b].0 == p.outlets[b]
      && FifoOrder(p, p.outlets[b], orders[b])
      && st[b].1 == Entries(p, orders[b])
  }

  /** Storing the next outlet's dictionary under its key appends it. */
  lemma StoredStep(
    p: ChannelProfiler, st: seq<(nat, seq<((nat, nat), seq<nat>)>)>, orders: seq<seq<nat>>,
    net: seq<((nat, nat), seq<nat>)>, starts: seq<nat>)
    requires Ready(p) && Distinct(p.outlets) && Stored(p, st, orders) && |st| < |p.outlets|
    requires FifoOrder(p, p.outlets[|st|], starts) && net == Entries(p, starts)
    ensures Stored(p, Put(st, p.outlets[|st|], net), orders + [starts])
  {
    var o := p.outlets[|st|];
    assert !KeyIn(st, o) by {
      forall b | 0 <= b < |st|
        ensures st[b].0 != o
      {
      }
    }
    PutFresh(st, o, net);
    var e, os := st + [(o, net)], orders + [starts];
    forall b | 0 <= b < |e|
      ensures e[b].0 == p.outlets[b] && FifoOrder(p, p.outlets[b], os[b]) && e[b].1 == Entries(p, os[b])
    {
      if b < |st| {
        assert e[b] == st[b] && os[b] == orders[b];
      }
    }
  }

  /** What is stored is, for each outlet, a dictionary the queue loop
      builds. */
  lemma StoredNetworks(p: ChannelProfiler, st: seq<(nat, seq<((nat, nat), seq<nat>)>)>, orders: seq<seq<nat>>)
    requires Ready(p) && Stored(p, st, orders)
    ensures forall a :: 0 <= a < |st| ==> st[a].0 == p.outlets[a] && IsNetwork(p, p.outlets[a], st[a].1)
  {
    forall a | 0 <= a < |st|
      ensures IsNetwork(p, p.outlets[a], st[a].1)
    {
      assert FifoOrder(p, p.outlets[a], orders[a]);
    }
  }

  /** `_create_profile_structure`: for every outlet, in order, the ordered
      dictionary of its channel network under the outlet's key; then the
      flat list of all segments. */
  method CreateProfileStructure(p: ChannelProfiler)
    returns (structure: seq<(nat, seq<((nat, nat), seq<nat>)>)>, nodes: seq<seq<nat>>)
    requires Ready(p) && Nodes(p.outlets, |p.receivers|) && Distinct(p.outlets)
    ensures |structure| == |p.outlets|
    ensures forall a :: 0 <= a < |structure| ==> structure[a].0 == p.outlets[a]
    ensures forall a :: 0 <= a < |structure| ==> IsNetwork(p, p.outlets[a], structure[a].1)
    ensures nodes == Flatten(structure)
  {
    structure := [];
    ghost var orders: seq<seq<nat>> := [];
    while |structure| < |p.outlets|
      invariant Stored(p, structure, orders)
      decreases |p.outlets| - |structure|
    {
      var o := p.outlets[|structure|];
      ghost var starts;
      var net;
      net, starts := OutletNetwork(p, o);
      StoredStep(p, structure, orders, net, starts);
      structure := Put(structure, o, net);
      orders := orders + [starts];
    }
    StoredNetworks(p, structure, orders);
    nodes := FlatStructures(structure);
  }
}
