/** Sums of weights over a selection of nodes: `SumWhere(w, sel, k)` adds
    `w[m]` for every `m < k` with `sel[m]`. Accumulated fields are such sums,
    so these facts are what the accumulation proofs rest on. */
module Sums {

  function SumWhere(w: seq<real>, sel: seq<bool>, k: nat): real
    requires k <= |w| && k <= |sel|
  {
    if k == 0 then 0.0 else SumWhere(w, sel, k - 1) + (if sel[k - 1] then w[k - 1] else 0.0)
  }

  /** Selections that agree below `k` have the same sum. */
  lemma {:induction false} SumSame(w: seq<real>, a: seq<bool>, b: seq<bool>, k: nat)
    requires k <= |w| && k <= |a| && k <= |b|
    requires forall m :: 0 <= m < k ==> a[m] == b[m]
    ensures SumWhere(w, a, k) == SumWhere(w, b, k)
  {
    if k > 0 {
      SumSame(w, a, b, k - 1);
    }
  }

  /** The sum over a disjoint union is the sum of the sums. */
  lemma {:induction false} SumUnion(w: seq<real>, a: seq<bool>, b: seq<bool>, c: seq<bool>, k: nat)
    requires k <= |w| && k <= |a| && k <= |b| && k <= |c|
    requires forall m :: 0 <= m < k ==> (c[m] <==> a[m] || b[m]) && !(a[m] && b[m])
    ensures SumWhere(w, c, k) == SumWhere(w, a, k) + SumWhere(w, b, k)
  {
    if k > 0 {
      SumUnion(w, a, b, c, k - 1);
    }
  }

  /** Selecting the single node `x` sums to its weight. */
  lemma {:induction false} SumSingle(w: seq<real>, a: seq<bool>, x: nat, k: nat)
    requires k <= |w| && k <= |a|
    requires forall m :: 0 <= m < k ==> (a[m] <==> m == x)
    ensures SumWhere(w, a, k) == if x < k then w[x] else 0.0
  {
    if k > 0 {
      SumSingle(w, a, x, k - 1);
    }
  }

  /** The selected indices below `k`. */
  function Selected(a: seq<bool>, k: nat): set<nat>
    requires k <= |a|
  {
    set m: nat | m < k && a[m]
  }

  /** With unit weights the sum counts the selected nodes. */
  lemma {:induction false} SumCount(w: seq<real>, a: seq<bool>, k: nat)
    requires k <= |w| && k <= |a|
    requires forall m :: 0 <= m < k ==> w[m] == 1.0
    ensures SumWhere(w, a, k) == |Selected(a, k)| as real
  {
    if k > 0 {
      SumCount(w, a, k - 1);
      if a[k - 1] {
        assert Selected(a, k) == Selected(a, k - 1) + {k - 1};
      } else {
        assert Selected(a, k) == Selected(a, k - 1);
      }
    }
  }

  /** With non-negative weights, selecting more never sums to less. */
  lemma {:induction false} SumMono(w: seq<real>, a: seq<bool>, b: seq<bool>, k: nat)
    requires k <= |w| && k <= |a| && k <= |b|
    requires forall m :: 0 <= m < k ==> w[m] >= 0.0
    requires forall m :: 0 <= m < k ==> a[m] ==> b[m]
    ensures SumWhere(w, a, k) <= SumWhere(w, b, k)
  {
    if k > 0 {
      SumMono(w, a, b, k - 1);
    }
  }

  /** Summing everything: the plain total of the first `k` weights. */
  function Total(w: seq<real>, k: nat): real
    requires k <= |w|
  {
    if k == 0 then 0.0 else Total(w, k - 1) + w[k - 1]
  }

  lemma {:induction false} SumAll(w: seq<real>, a: seq<bool>, k: nat)
    requires k <= |w| && k <= |a|
    requires forall m :: 0 <= m < k ==> a[m]
    ensures SumWhere(w, a, k) == Total(w, k)
  {
    if k > 0 {
      SumAll(w, a, k - 1);
    }
  }

  /** Changing one weight changes the sum by the difference, when that node
      is selected. */
  lemma {:induction false} SumUpdate(w: seq<real>, a: seq<bool>, k: nat, i: nat, v: real)
    requires k <= |w| && k <= |a| && i < |w|
    ensures SumWhere(w[i := v], a, k) ==
      SumWhere(w, a, k) + (if i < k && a[i] then v - w[i] else 0.0)
  {
    if k > 0 {
      SumUpdate(w, a, k - 1, i, v);
    }
  }

  /** Summing pointwise sums of weights. */
  lemma {:induction false} SumAdd(u: seq<real>, v: seq<real>, s: seq<real>, a: seq<bool>, k: nat)
    requires k <= |u| && k <= |v| && k <= |s| && k <= |a|
    requires forall m :: 0 <= m < k ==> s[m] == u[m] + v[m]
    ensures SumWhere(s, a, k) == SumWhere(u, a, k) + SumWhere(v, a, k)
  {
    if k > 0 {
      SumAdd(u, v, s, a, k - 1);
    }
  }

  /** Selected weights that are all zero sum to zero. */
  lemma {:induction false} SumZero(w: seq<real>, a: seq<bool>, k: nat)
    requires k <= |w| && k <= |a|
    requires forall m :: 0 <= m < k && a[m] ==> w[m] == 0.0
    ensures SumWhere(w, a, k) == 0.0
  {
    if k > 0 {
      SumZero(w, a, k - 1);
    }
  }

  /** When `o` is the only selected node with a non-zero weight, the sum is
      its weight. */
  lemma {:induction false} SumOneSelected(w: seq<real>, a: seq<bool>, o: nat, k: nat)
    requires k <= |w| && k <= |a| && o < k && a[o]
    requires forall m :: 0 <= m < k && m != o && a[m] ==> w[m] == 0.0
    ensures SumWhere(w, a, k) == w[o]
  {
    if k - 1 == o {
      SumZero(w, a, k - 1);
    } else {
      SumOneSelected(w, a, o, k - 1);
    }
  }

  /** The selected indices below `k` that belong to `s`. */
  function SelectedIn(a: seq<bool>, s: set<nat>, k: nat): set<nat>
    requires k <= |a|
  {
    set m: nat | m < k && a[m] && m in s
  }

  /** With indicator weights of a set `s` the sum counts the selected
      members of `s`. */
  lemma {:induction false} SumIndicator(w: seq<real>, a: seq<bool>, s: set<nat>, k: nat)
    requires k <= |w| && k <= |a|
    requires forall m: nat :: m < k ==> w[m] == if m in s then 1.0 else 0.0
    ensures SumWhere(w, a, k) == |SelectedIn(a, s, k)| as real
  {
    if k > 0 {
      SumIndicator(w, a, s, k - 1);
      if a[k - 1] && k - 1 in s {
        assert SelectedIn(a, s, k) == SelectedIn(a, s, k - 1) + {k - 1};
      } else {
        assert SelectedIn(a, s, k) == SelectedIn(a, s, k - 1);
      }
    }
  }
}
