/** The donor index: the inverse of the receiver array in the flat
    "counts, offsets, donors" layout of Braun and Willett (2013). Node `n`'s
    direct donors are `donors[delta[n] .. delta[n+1]]`, ascending; a
    baselevel node is never listed as its own donor. */
module Donors {
  import opened Drainage

  /** The donors of `n` among the nodes below `k`, ascending. */
  function DonorsBelow(r: seq<nat>, n: nat, k: nat): (ds: seq<nat>)
    requires k <= |r|
    ensures forall d: nat :: d in ds <==> d < k && r[d] == n && d != n
    ensures StrictlyIncreasing(ds)
    ensures forall j :: 0 <= j < |ds| ==> ds[j] < k
  {
    if k == 0 then []
    else if r[k - 1] == n && k - 1 != n then DonorsBelow(r, n, k - 1) + [k - 1]
    else DonorsBelow(r, n, k - 1)
  }

  /** The direct donors of `n`, ascending: every `d != n` with `r[d] == n`. */
  function DonorsOf(r: seq<nat>, n: nat): (ds: seq<nat>)
    ensures forall d: nat :: d in ds <==> d < |r| && r[d] == n && d != n
    ensures StrictlyIncreasing(ds)
  {
    DonorsBelow(r, n, |r|)
  }

  /** The donor list of `n` lists each direct donor once. */
  lemma DonorsOfCount(r: seq<nat>, n: nat)
    ensures |DonorsOf(r, n)| == |DonorSet(r, n)|
  {
    DistinctCard(DonorsOf(r, n));
    assert Elems(DonorsOf(r, n)) == DonorSet(r, n);
  }

  /** `count_donors`: `counts[n]` is the number of nodes other than `n` whose
      receiver is `n`. */
  function CountDonors(r: seq<nat>): (c: seq<nat>)
    ensures |c| == |r|
    ensures forall n :: 0 <= n < |r| ==> c[n] == |DonorSet(r, n)|
  {
    var c := seq(|r|, n requires 0 <= n < |r| => |DonorsOf(r, n)|);
    assert forall n :: 0 <= n < |r| ==> c[n] == |DonorSet(r, n)| by {
      forall n | 0 <= n < |r|
        ensures c[n] == |DonorSet(r, n)|
      {
        DonorsOfCount(r, n);
      }
    }
    c
  }

  /** Exclusive prefix sums of the first `k` counts. */
  function PrefixSums(c: seq<nat>, k: nat): (d: seq<nat>)
    requires k <= |c|
    ensures |d| == k + 1 && d[0] == 0
    ensures forall n :: 0 <= n < k ==> d[n + 1] == d[n] + c[n]
  {
    if k == 0 then [0]
    else
      var d := PrefixSums(c, k - 1);
      d + [d[k - 1] + c[k - 1]]
  }

  /** `ndonors_to_delta`: offsets of each node's slice of the donor array. */
  function Delta(c: seq<nat>): (d: seq<nat>)
    ensures |d| == |c| + 1 && d[0] == 0
    ensures forall n :: 0 <= n < |c| ==> d[n + 1] == d[n] + c[n]
  {
    PrefixSums(c, |c|)
  }

  /** The donor lists of the nodes below `k`, one after the other. */
  function DonorArrayBelow(r: seq<nat>, k: nat): seq<nat>
    requires k <= |r|
  {
    if k == 0 then [] else DonorArrayBelow(r, k - 1) + DonorsOf(r, k - 1)
  }

  /** `make_donor_array`. */
  function DonorArray(r: seq<nat>): seq<nat> {
    DonorArrayBelow(r, |r|)
  }

  /** Slice `n` of a flat array laid out by offsets `delta` holds `ds`. */
  predicate SliceIs(delta: seq<nat>, flat: seq<nat>, n: nat, ds: seq<nat>) {
    && n + 1 < |delta|
    && delta[n] <= delta[n + 1] <= |flat|
    && flat[delta[n] .. delta[n + 1]] == ds
  }

  /** Offsets `delta` are the exclusive prefix sums of the donor-list lengths. */
  predicate IsDelta(r: seq<nat>, delta: seq<nat>) {
    && |delta| == |r| + 1
    && delta[0] == 0
    && forall n :: 0 <= n < |r| ==> delta[n + 1] == delta[n] + |DonorsOf(r, n)|
  }

  /** Appending to a flat array leaves its existing slices in place. */
  lemma SliceIsAppend(delta: seq<nat>, flat: seq<nat>, extra: seq<nat>, n: nat, ds: seq<nat>)
    requires SliceIs(delta, flat, n, ds)
    ensures SliceIs(delta, flat + extra, n, ds)
  {
    assert (flat + extra)[delta[n] .. delta[n + 1]] == flat[delta[n] .. delta[n + 1]];
  }

  /** A list appended at offset `delta[n]` becomes slice `n`. */
  lemma SliceIsLast(delta: seq<nat>, flat: seq<nat>, n: nat, ds: seq<nat>)
    requires n + 1 < |delta| && delta[n] == |flat| && delta[n + 1] == |flat| + |ds|
    ensures SliceIs(delta, flat + ds, n, ds)
  {
    assert (flat + ds)[|flat| .. |flat| + |ds|] == ds;
  }

  /** Appending the list of node `k - 1` at offset `delta[k - 1]` extends a
      layout of the first `k - 1` slices to the first `k`. */
  lemma LayoutStep(delta: seq<nat>, prev: seq<nat>, lists: seq<seq<nat>>, k: nat)
    requires 0 < k < |delta| && k <= |lists|
    requires delta[k - 1] == |prev| && delta[k] == |prev| + |lists[k - 1]|
    requires forall n :: 0 <= n < k - 1 ==> SliceIs(delta, prev, n, lists[n])
    ensures forall n :: 0 <= n < k ==> SliceIs(delta, prev + lists[k - 1], n, lists[n])
  {
    forall n | 0 <= n < k
      ensures SliceIs(delta, prev + lists[k - 1], n, lists[n])
    {
      if n < k - 1 {
        SliceIsAppend(delta, prev, lists[k - 1], n, lists[n]);
      } else {
        SliceIsLast(delta, prev, n, lists[k - 1]);
      }
    }
  }

  /** The donor lists of all nodes, `lists[n] == DonorsOf(r, n)`. */
  function AllDonors(r: seq<nat>): (lists: seq<seq<nat>>)
    ensures |lists| == |r|
  {
    seq(|r|, n requires 0 <= n < |r| => DonorsOf(r, n))
  }

  /** The first `k` slices of the donor array are laid out by the offsets. */
  lemma {:induction false} DonorArrayLayout(r: seq<nat>, delta: seq<nat>, k: nat)
    requires k <= |r| && IsDelta(r, delta)
    ensures |DonorArrayBelow(r, k)| == delta[k]
    ensures forall n :: 0 <= n < k ==> SliceIs(delta, DonorArrayBelow(r, k), n, AllDonors(r)[n])
  {
    if k > 0 {
      DonorArrayLayout(r, delta, k - 1);
      var lists := AllDonors(r);
      assert DonorArrayBelow(r, k) == DonorArrayBelow(r, k - 1) + lists[k - 1];
      LayoutStep(delta, DonorArrayBelow(r, k - 1), lists, k);
    }
  }

  /** The three arrays of the donor index. */
  datatype DonorIndex = DonorIndex(counts: seq<nat>, delta: seq<nat>, donors: seq<nat>)

  /** `idx` indexes the donors of receiver array `r`: each node's slice is
      exactly its list of direct donors, ascending. */
  predicate Indexes(idx: DonorIndex, r: seq<nat>) {
    && |idx.counts| == |r|
    && |idx.delta| == |r| + 1
    && forall n :: 0 <= n < |r| ==> SliceIs(idx.delta, idx.donors, n, DonorsOf(r, n))
  }

  /** The slice of node `n` in a donor index (empty where the offsets do not
      describe a slice). */
  function Slice(idx: DonorIndex, n: nat): seq<nat> {
    if n + 1 < |idx.delta| && idx.delta[n] <= idx.delta[n + 1] <= |idx.donors|
    then idx.donors[idx.delta[n] .. idx.delta[n + 1]]
    else []
  }

  /** `count_donors`, `ndonors_to_delta` and `make_donor_array` in sequence. */
  function BuildDonorIndex(r: seq<nat>): (idx: DonorIndex)
    ensures Indexes(idx, r)
  {
    var counts := CountDonors(r);
    var delta := Delta(counts);
    assert IsDelta(r, delta) by {
      forall n | 0 <= n < |r|
        ensures delta[n + 1] == delta[n] + |DonorsOf(r, n)|
      {
        DonorsOfCount(r, n);
      }
    }
    DonorArrayLayout(r, delta, |r|);
    var idx := DonorIndex(counts, delta, DonorArray(r));
    assert forall n :: 0 <= n < |r| ==> AllDonors(r)[n] == DonorsOf(r, n);
    idx
  }

  /** Donor/receiver duality: node `n` is listed in the slice of its receiver
      exactly when it is not a baselevel node, and every node listed in the
      slice of `x` has receiver `x`. */
  lemma DonorReceiverDuality(idx: DonorIndex, r: seq<nat>, n: nat, x: nat)
    requires Indexes(idx, r) && ValidReceivers(r) && n < |r| && x < |r|
    ensures n in Slice(idx, r[n]) <==> r[n] != n
    ensures n in Slice(idx, x) ==> r[n] == x
  {
    assert SliceIs(idx.delta, idx.donors, r[n], DonorsOf(r, r[n]));
    assert SliceIs(idx.delta, idx.donors, x, DonorsOf(r, x));
  }
}
