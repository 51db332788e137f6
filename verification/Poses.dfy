/** Poses of the six arm joints and how messages name them. */
module Poses {
  import opened Names
  import opened Numbers

  const DOF := 6
  const ARM_JOINTS: seq<string> := ["joint1", "joint2", "joint3", "joint4", "joint5", "joint6"]

  type Pose = s: seq<real> | |s| == DOF witness [0.0, 0.0, 0.0, 0.0, 0.0, 0.0]

  predicate Complete(names: seq<string>) {
    forall j | 0 <= j < DOF :: ARM_JOINTS[j] in names
  }

  /** The arm's values in joint order, wherever the message lists them. */
  function PoseOf(names: seq<string>, values: seq<real>): Pose
    requires |values| == |names| && Complete(names)
  {
    seq(DOF, j requires 0 <= j < DOF => values[LastIndex(names, ARM_JOINTS[j])])
  }

  /** A joint gets the value at the last place that names it. */
  lemma LastNamed(names: seq<string>, values: seq<real>, j: nat, i: nat)
    requires |values| == |names| && Complete(names) && j < DOF && i < |names|
    requires names[i] == ARM_JOINTS[j] && ARM_JOINTS[j] !in names[i + 1..]
    ensures PoseOf(names, values)[j] == values[i]
  {
    var k := LastIndex(names, ARM_JOINTS[j]);
    forall q | k < q < |names| ensures names[q] in names[k + 1..] {
      assert names[k + 1..][q - k - 1] == names[q];
    }
    forall q | i < q < |names| ensures names[q] in names[i + 1..] {
      assert names[i + 1..][q - i - 1] == names[q];
    }
  }

  /** The same with a name_to_idx dictionary. */
  method PickPose(ghost names: seq<string>, values: seq<real>, index: map<string, nat>) returns (pose: Pose)
    requires |values| == |names| && Complete(names) && Indexes(index, names)
    ensures pose == PoseOf(names, values)
  {
    var picked: seq<real> := [];
    for j := 0 to DOF
      invariant |picked| == j
      invariant forall i | 0 <= i < j :: picked[i] == PoseOf(names, values)[i]
    {
      assert ARM_JOINTS[j] in names;
      picked := picked + [values[index[ARM_JOINTS[j]]]];
    }
    pose := picked;
  }

  method HasAllJoints(ghost names: seq<string>, index: map<string, nat>) returns (complete: bool)
    requires Indexes(index, names)
    ensures complete == Complete(names)
  {
    complete := true;
    for j := 0 to DOF
      invariant complete <==> forall i | 0 <= i < j :: ARM_JOINTS[i] in names
    {
      if ARM_JOINTS[j] !in index {
        complete := false;
      }
    }
  }

  /** The largest distance of two poses in their first n joints. */
  function MaxDelta(a: Pose, b: Pose, n: nat): (d: real)
    requires n <= DOF
    ensures d >= 0.0
  {
    if n == 0 then 0.0 else Max(MaxDelta(a, b, n - 1), Abs(b[n - 1] - a[n - 1]))
  }

  /** It bounds every joint's distance and is reached by one. */
  lemma {:induction false} MaxDeltaIsMax(a: Pose, b: Pose, n: nat)
    requires n <= DOF
    ensures forall j | 0 <= j < n :: Abs(b[j] - a[j]) <= MaxDelta(a, b, n)
    ensures MaxDelta(a, b, n) == 0.0 || exists j | 0 <= j < n :: Abs(b[j] - a[j]) == MaxDelta(a, b, n)
  {
    if n > 0 {
      MaxDeltaIsMax(a, b, n - 1);
      if MaxDelta(a, b, n) != MaxDelta(a, b, n - 1) {
        assert Abs(b[n - 1] - a[n - 1]) == MaxDelta(a, b, n);
      }
    }
  }

  method LargestDelta(a: Pose, b: Pose) returns (d: real)
    ensures d == MaxDelta(a, b, DOF)
  {
    d := 0.0;
    for j := 0 to DOF
      invariant d == MaxDelta(a, b, j)
    {
      d := Max(d, Abs(b[j] - a[j]));
    }
  }
}
