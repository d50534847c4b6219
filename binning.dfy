/**
 * `pd.cut(x, bins=edges, labels=labels)` with pandas' defaults: right-closed
 * intervals `(edges[k], edges[k + 1]]`, the lowest edge excluded, and a
 * missing result for missing values and values outside every interval.
 */
module Binning {
  import opened Wrappers
  import opened Frames

  ghost predicate StrictlyIncreasing(edges: seq<real>)
  {
    forall i, j :: 0 <= i < j < |edges| ==> edges[i] < edges[j]
  }

  /** The interval `(edges[k], edges[k + 1]]` holding `x`, if any. */
  function CutIndex(x: real, edges: seq<real>): (k: Option<nat>)
    ensures k.Some? ==> k.value + 1 < |edges| && edges[k.value] < x <= edges[k.value + 1]
    ensures k.None? ==> forall j :: 0 <= j < |edges| - 1 ==> !(edges[j] < x <= edges[j + 1])
  {
    if |edges| < 2 then None
    else if edges[0] < x <= edges[1] then Some(0)
    else match CutIndex(x, edges[1..])
      case None => None
      case Some(k) => Some(k + 1)
  }

  /** With increasing edges the intervals are disjoint, so a value lies in at most one. */
  lemma CutIndexUnique(x: real, edges: seq<real>, k: nat)
    requires StrictlyIncreasing(edges)
    requires k + 1 < |edges| && edges[k] < x <= edges[k + 1]
    ensures CutIndex(x, edges) == Some(k)
  {
    forall j | 0 <= j < |edges| - 1 && j != k
      ensures !(edges[j] < x <= edges[j + 1])
    {
      if j < k {
        assert edges[j + 1] <= edges[k];
      } else {
        assert edges[k + 1] <= edges[j];
      }
    }
  }

  /** With increasing edges, a value falls outside every interval exactly when it is at most the lowest edge or above the highest. */
  lemma CutIndexNone(x: real, edges: seq<real>)
    requires StrictlyIncreasing(edges) && |edges| >= 2
    ensures CutIndex(x, edges).None? <==> x <= edges[0] || x > edges[|edges| - 1]
  {
    if edges[0] < x <= edges[|edges| - 1] {
      var k := Straddle(x, edges);
      CutIndexUnique(x, edges, k);
    }
    if CutIndex(x, edges).Some? {
      var k := CutIndex(x, edges).value;
      assert edges[0] <= edges[k] && edges[k + 1] <= edges[|edges| - 1];
    }
  }

  /** A value strictly above the lowest edge and at most the highest lies in some interval. */
  lemma {:induction false} Straddle(x: real, edges: seq<real>) returns (k: nat)
    requires StrictlyIncreasing(edges) && |edges| >= 2
    requires edges[0] < x <= edges[|edges| - 1]
    ensures k + 1 < |edges| && edges[k] < x <= edges[k + 1]
  {
    if x <= edges[1] {
      k := 0;
    } else {
      var j := Straddle(x, edges[1..]);
      k := j + 1;
    }
  }

  /** `pd.cut` on one cell: the label of its interval, or missing. */
  function Cut(c: Cell, edges: seq<real>, labels: seq<string>): (r: Cell)
    requires |labels| + 1 == |edges|
    ensures !r.Num?
    ensures r.Str? ==> c.Num? && r.s in labels
  {
    if c.Num? then
      match CutIndex(c.x, edges)
      case Some(k) => Str(labels[k])
      case None => Null
    else Null
  }

  /** With increasing edges and distinct labels, a cell gets label `k` exactly when it is a number in interval `k`. */
  lemma CutLabel(c: Cell, edges: seq<real>, labels: seq<string>, k: nat)
    requires |labels| + 1 == |edges| && StrictlyIncreasing(edges) && k < |labels|
    requires forall i, j :: 0 <= i < j < |labels| ==> labels[i] != labels[j]
    ensures Cut(c, edges, labels) == Str(labels[k]) <==> c.Num? && edges[k] < c.x <= edges[k + 1]
  {
    if c.Num? {
      if edges[k] < c.x <= edges[k + 1] {
        CutIndexUnique(c.x, edges, k);
      }
      if CutIndex(c.x, edges).Some? {
        var j := CutIndex(c.x, edges).value;
        assert j == k || labels[j] != labels[k];
      }
    }
  }

  /** With increasing edges, a cell is left without a label exactly when it is not a number or lies outside the outer edges. */
  lemma CutNull(c: Cell, edges: seq<real>, labels: seq<string>)
    requires |labels| + 1 == |edges| && StrictlyIncreasing(edges) && |edges| >= 2
    ensures Cut(c, edges, labels) == Null <==> !c.Num? || c.x <= edges[0] || c.x > edges[|edges| - 1]
  {
    if c.Num? {
      CutIndexNone(c.x, edges);
    }
  }
}
