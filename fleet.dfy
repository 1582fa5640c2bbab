/** The fixed fleet: how many ships of each size are placed, how many segments that makes,
    and the order in which the generator places them. */
module Fleet {

  /** Number of ships of each kind; index k is the kind of size k + 1. */
  const Counts: seq<int> := [5, 4, 3, 2, 1]

  /** Size of each kind of ship. */
  const Sizes: seq<int> := [1, 2, 3, 4, 5]

  /** Sum over every kind of its count times its size. */
  function WeightedSum(counts: seq<int>, sizes: seq<int>): int
    requires |counts| == |sizes|
  {
    if |sizes| == 0 then 0
    else WeightedSum(counts[..|sizes| - 1], sizes[..|sizes| - 1]) + counts[|sizes| - 1] * sizes[|sizes| - 1]
  }

  /** Total number of ship segments of a fleet, accumulated kind by kind. */
  method CountSegments(counts: seq<int>, sizes: seq<int>) returns (total: int)
    requires |counts| == |sizes|
    ensures total == WeightedSum(counts, sizes)
  {
    total := 0;
    for i := 0 to |sizes|
      invariant total == WeightedSum(counts[..i], sizes[..i])
    {
      assert counts[..i + 1][..i] == counts[..i] && sizes[..i + 1][..i] == sizes[..i];
      total := total + counts[i] * sizes[i];
    }
    assert counts[..|sizes|] == counts && sizes[..|sizes|] == sizes;
  }

  /** The default fleet has 35 segments. */
  lemma DefaultFleetSegments()
    ensures WeightedSum(Counts, Sizes) == 35
  {
    assert [5, 4, 3, 2, 1][..4] == [5, 4, 3, 2] && [1, 2, 3, 4, 5][..4] == [1, 2, 3, 4];
    assert [5, 4, 3, 2][..3] == [5, 4, 3] && [1, 2, 3, 4][..3] == [1, 2, 3];
    assert [5, 4, 3][..2] == [5, 4] && [1, 2, 3][..2] == [1, 2];
    assert [5, 4][..1] == [5] && [1, 2][..1] == [1];
    assert [5][..0] == [] && [1][..0] == [];
    assert WeightedSum([5], [1]) == 5;
    assert WeightedSum([5, 4], [1, 2]) == 13;
    assert WeightedSum([5, 4, 3], [1, 2, 3]) == 22;
    assert WeightedSum([5, 4, 3, 2], [1, 2, 3, 4]) == 30;
  }

  /** n copies of v. */
  function Repeat(v: int, n: int): (r: seq<int>)
    ensures |r| == if n <= 0 then 0 else n
    ensures forall k :: 0 <= k < |r| ==> r[k] == v
  {
    if n <= 0 then [] else Repeat(v, n - 1) + [v]
  }

  /** Sizes of the ships of the kinds i.. in the order the generator places them:
      the largest kind first, every ship of a kind before the next smaller kind. */
  function PlanFrom(counts: seq<int>, sizes: seq<int>, i: nat): seq<int>
    requires |counts| == |sizes| && i <= |sizes|
    decreases |sizes| - i
  {
    if i == |sizes| then [] else PlanFrom(counts, sizes, i + 1) + Repeat(sizes[i], counts[i])
  }

  /** Sum of a sequence of sizes. */
  function Sum(s: seq<int>): int
  {
    if |s| == 0 then 0 else Sum(s[..|s| - 1]) + s[|s| - 1]
  }

  lemma {:induction false} SumAppend(a: seq<int>, b: seq<int>)
    ensures Sum(a + b) == Sum(a) + Sum(b)
    decreases |b|
  {
    if |b| == 0 {
      assert a + b == a;
    } else {
      assert (a + b)[..|a + b| - 1] == a + b[..|b| - 1];
      SumAppend(a, b[..|b| - 1]);
    }
  }

  lemma {:induction false} SumRepeat(v: int, n: nat)
    ensures Sum(Repeat(v, n)) == n * v
  {
    if n > 0 {
      var r := Repeat(v, n - 1);
      assert (r + [v])[..|r|] == r;
      SumRepeat(v, n - 1);
      MulStep(v, n);
    }
  }

  lemma MulStep(v: int, n: int)
    ensures (n - 1) * v + v == n * v
  {
  }

  /** Placing the planned ships of the kinds i.. and counting the kinds ..i the way
      CountSegments does together account for every segment of the fleet. */
  lemma {:induction false} PlanFromSegments(counts: seq<int>, sizes: seq<int>, i: nat)
    requires |counts| == |sizes| && i <= |sizes|
    requires forall k :: 0 <= k < |counts| ==> counts[k] >= 0
    ensures Sum(PlanFrom(counts, sizes, i)) + WeightedSum(counts[..i], sizes[..i]) == WeightedSum(counts, sizes)
    decreases |sizes| - i
  {
    if i == |sizes| {
      assert counts[..i] == counts && sizes[..i] == sizes;
    } else {
      PlanFromSegments(counts, sizes, i + 1);
      SumAppend(PlanFrom(counts, sizes, i + 1), Repeat(sizes[i], counts[i]));
      SumRepeat(sizes[i], counts[i]);
      assert counts[..i + 1][..i] == counts[..i] && sizes[..i + 1][..i] == sizes[..i];
    }
  }

  /** The whole placement plan has exactly the fleet's number of segments. */
  lemma PlanSegments(counts: seq<int>, sizes: seq<int>)
    requires |counts| == |sizes|
    requires forall k :: 0 <= k < |counts| ==> counts[k] >= 0
    ensures Sum(PlanFrom(counts, sizes, 0)) == WeightedSum(counts, sizes)
  {
    PlanFromSegments(counts, sizes, 0);
  }

  /** The default fleet is placed as one ship of size 5, two of size 4, three of size 3,
      four of size 2 and five of size 1, in that order. */
  lemma DefaultPlan()
    ensures PlanFrom(Counts, Sizes, 0) == [5, 4, 4, 3, 3, 3, 2, 2, 2, 2, 1, 1, 1, 1, 1]
  {
    assert PlanFrom(Counts, Sizes, 4) == [5];
    assert PlanFrom(Counts, Sizes, 3) == [5, 4, 4];
    assert PlanFrom(Counts, Sizes, 2) == [5, 4, 4, 3, 3, 3];
    assert PlanFrom(Counts, Sizes, 1) == [5, 4, 4, 3, 3, 3, 2, 2, 2, 2];
  }
}
