/** Per-joint buffers flattened into one aggregated buffer by prefix-sum offsets. */
module Flattening {

  function Sum(counts: seq<nat>): nat {
    if |counts| == 0 then 0 else Sum(counts[..|counts| - 1]) + counts[|counts| - 1]
  }

  /** Where joint j starts in the aggregated buffer. */
  function Offset(counts: seq<nat>, j: nat): nat
    requires j <= |counts|
  {
    Sum(counts[..j])
  }

  lemma OffsetStep(counts: seq<nat>, j: nat)
    requires j < |counts|
    ensures Offset(counts, j + 1) == Offset(counts, j) + counts[j]
  {
    assert counts[..j + 1][..j] == counts[..j];
  }

  lemma {:induction false} OffsetMonotone(counts: seq<nat>, j: nat, k: nat)
    requires j <= k <= |counts|
    ensures Offset(counts, j) <= Offset(counts, k)
    decreases k - j
  {
    if j < k {
      OffsetStep(counts, k - 1);
      OffsetMonotone(counts, j, k - 1);
    }
  }

  /** Different interfaces have different cells. */
  lemma CellsDisjoint(counts: seq<nat>, j: nat, i: nat, k: nat, m: nat)
    requires j < |counts| && i < counts[j] && k < |counts| && m < counts[k]
    requires Offset(counts, j) + i == Offset(counts, k) + m
    ensures j == k && i == m
  {
    OffsetStep(counts, j);
    OffsetStep(counts, k);
    if j < k { OffsetMonotone(counts, j + 1, k); }
    if k < j { OffsetMonotone(counts, k + 1, j); }
  }

  /** Every cell of the aggregated buffer belongs to some interface. */
  lemma {:induction false} CellsCover(counts: seq<nat>, p: nat) returns (j: nat, i: nat)
    requires p < Sum(counts)
    ensures j < |counts| && i < counts[j] && p == Offset(counts, j) + i
  {
    var n := |counts| - 1;
    if p < Sum(counts[..n]) {
      j, i := CellsCover(counts[..n], p);
      assert counts[..n][..j] == counts[..j];
    } else {
      j, i := n, p - Sum(counts[..n]);
    }
  }

  predicate HasShape<T>(m: seq<seq<T>>, counts: seq<nat>) {
    |m| == |counts| && forall j | 0 <= j < |m| :: |m[j]| == counts[j]
  }

  /** Gather: the joints' buffers one after the other. */
  function Gather<T>(m: seq<seq<T>>): seq<T> {
    if |m| == 0 then [] else Gather(m[..|m| - 1]) + m[|m| - 1]
  }

  lemma PartInside(counts: seq<nat>, j: nat)
    requires j < |counts|
    ensures Offset(counts, j) + counts[j] <= Sum(counts)
  {
    OffsetStep(counts, j);
    OffsetMonotone(counts, j + 1, |counts|);
    assert counts[..|counts|] == counts;
  }

  /** Joint j's part of the aggregated buffer. */
  function Part<T>(counts: seq<nat>, flat: seq<T>, j: nat): (part: seq<T>)
    requires |flat| == Sum(counts) && j < |counts|
    ensures |part| == counts[j]
  {
    PartInside(counts, j);
    flat[Offset(counts, j)..Offset(counts, j) + counts[j]]
  }

  /** Scatter: the joints' parts of the aggregated buffer. */
  function Scatter<T>(counts: seq<nat>, flat: seq<T>): (m: seq<seq<T>>)
    requires |flat| == Sum(counts)
    ensures HasShape(m, counts)
  {
    seq(|counts|, j requires 0 <= j < |counts| => Part(counts, flat, j))
  }

  lemma GatherPush<T>(m: seq<seq<T>>, row: seq<T>)
    ensures Gather(m + [row]) == Gather(m) + row
  {
    assert (m + [row])[..|m|] == m;
  }

  lemma {:induction false} GatherLength<T>(m: seq<seq<T>>, counts: seq<nat>)
    requires HasShape(m, counts)
    ensures |Gather(m)| == Sum(counts)
  {
    if |m| > 0 {
      GatherLength(m[..|m| - 1], counts[..|m| - 1]);
    }
  }

  lemma {:induction false} GatherPart<T>(m: seq<seq<T>>, counts: seq<nat>, j: nat)
    requires HasShape(m, counts) && j < |m|
    ensures Offset(counts, j) + counts[j] <= |Gather(m)|
    ensures Gather(m)[Offset(counts, j)..Offset(counts, j) + counts[j]] == m[j]
  {
    var n := |m| - 1;
    GatherLength(m, counts);
    PartInside(counts, j);
    GatherLength(m[..n], counts[..n]);
    if j < n {
      GatherPart(m[..n], counts[..n], j);
      assert counts[..n][..j] == counts[..j];
      var p := Offset(counts, j);
      assert Gather(m)[p..p + counts[j]] == Gather(m[..n])[p..p + counts[j]];
    } else {
      assert counts[..j] == counts[..n];
    }
  }

  /** Scatter undoes gather. */
  lemma ScatterGather<T>(m: seq<seq<T>>, counts: seq<nat>)
    requires HasShape(m, counts)
    ensures |Gather(m)| == Sum(counts) && Scatter(counts, Gather(m)) == m
  {
    GatherLength(m, counts);
    forall j | 0 <= j < |m| ensures Scatter(counts, Gather(m))[j] == m[j] {
      GatherPart(m, counts, j);
    }
  }

  /** Gather undoes scatter. */
  lemma GatherScatter<T>(counts: seq<nat>, flat: seq<T>)
    requires |flat| == Sum(counts)
    ensures Gather(Scatter(counts, flat)) == flat
  {
    var m := Scatter(counts, flat);
    GatherLength(m, counts);
    forall p | 0 <= p < |flat| ensures Gather(m)[p] == flat[p] {
      var j, i := CellsCover(counts, p);
      GatherPart(m, counts, j);
      PartInside(counts, j);
      var o := Offset(counts, j);
      assert Gather(m)[o..o + counts[j]][i] == flat[o..o + counts[j]][i];
    }
  }

  /** With k interfaces on every joint, joint j starts at k * j. */
  lemma {:induction false} UniformOffset(counts: seq<nat>, k: nat, j: nat)
    requires j <= |counts| && forall i | 0 <= i < |counts| :: counts[i] == k
    ensures Offset(counts, j) == k * j
  {
    if j > 0 {
      OffsetStep(counts, j - 1);
      UniformOffset(counts, k, j - 1);
    }
  }
}
