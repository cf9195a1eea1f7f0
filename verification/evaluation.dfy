/** Pose evaluation (src/aspset510/evaluation.py): the MPJPE and PCK metrics
    over paired pose lists, the evaluator that accumulates pose pairs, and
    the rule that picks the one prediction file for a clip and camera. */
module Evaluation {
  import opened Base
  import opened Joints

  /** The PCK threshold used when none is given, in millimetres. */
  const DefaultThreshold: real := 150.0

  /** The metric names reported by collect_results, in the order it reports them. */
  const MpjpeName := "MPJPE"
  const RrMpjpeName := "Root-relative MPJPE"
  const PaMpjpeName := "Procrustes-aligned MPJPE"
  const PckName := "PCK"
  const RrPckName := "Root-relative PCK"
  const PaPckName := "Procrustes-aligned PCK"

  // ---------------------------------------------------------------------
  // Per-pose errors. The source computes them with vectorised numpy
  // expressions; `dist(p, q)` is the norm of p - q, called on
  // (expected joint, actual joint) as in `norm(expected - actual)`.
  // ---------------------------------------------------------------------

  /** The sum over joints of the distance between corresponding joints. */
  function SumDists(a: Pose, e: Pose, dist: Distance): real
    requires |a| == |e|
  {
    if |a| == 0 then 0.0 else dist(e[0], a[0]) + SumDists(a[1..], e[1..], dist)
  }

  /** The number of joints whose distance is at most the threshold. */
  function CountWithin(a: Pose, e: Pose, dist: Distance, threshold: real): (n: nat)
    requires |a| == |e|
    ensures n <= |a|
  {
    if |a| == 0 then 0
    else (if dist(e[0], a[0]) <= threshold then 1 else 0) + CountWithin(a[1..], e[1..], dist, threshold)
  }

  /** The mean per-joint position error of one pose. */
  function PoseError(a: Pose, e: Pose, dist: Distance): real
    requires |a| == |e| > 0
  {
    SumDists(a, e, dist) / |a| as real
  }

  /** The fraction of the pose's joints that are within the threshold. */
  function PoseAccuracy(a: Pose, e: Pose, dist: Distance, threshold: real): real
    requires |a| == |e| > 0
  {
    CountWithin(a, e, dist, threshold) as real / |a| as real
  }

  // ---------------------------------------------------------------------
  // Averages over paired pose lists. `zip` pairs the lists up to the
  // shorter one; each pair must hold two poses with the same, non-zero,
  // number of joints.
  // ---------------------------------------------------------------------

  function PairCount(actual: seq<Pose>, expected: seq<Pose>): nat
  {
    if |actual| <= |expected| then |actual| else |expected|
  }

  ghost predicate Paired(actual: seq<Pose>, expected: seq<Pose>)
  {
    forall i :: 0 <= i < |actual| && i < |expected| ==> |actual[i]| == |expected[i]| > 0
  }

  /** The running total of per-pose errors over the first `n` pairs. */
  function TotalError(actual: seq<Pose>, expected: seq<Pose>, n: nat, dist: Distance): real
    requires n <= |actual| && n <= |expected| && Paired(actual, expected)
  {
    if n == 0 then 0.0
    else TotalError(actual, expected, n - 1, dist) + PoseError(actual[n - 1], expected[n - 1], dist)
  }

  /** The running total of per-pose accuracies over the first `n` pairs. */
  function TotalAccuracy(actual: seq<Pose>, expected: seq<Pose>, n: nat, dist: Distance, threshold: real): real
    requires n <= |actual| && n <= |expected| && Paired(actual, expected)
  {
    if n == 0 then 0.0
    else TotalAccuracy(actual, expected, n - 1, dist, threshold)
         + PoseAccuracy(actual[n - 1], expected[n - 1], dist, threshold)
  }

  /** MPJPE: the mean over pose pairs of each pose's mean joint error, or 0
      when there are no pairs. */
  function MpjpeOf(actual: seq<Pose>, expected: seq<Pose>, dist: Distance): real
    requires Paired(actual, expected)
  {
    var n := PairCount(actual, expected);
    if n == 0 then 0.0 else TotalError(actual, expected, n, dist) / n as real
  }

  /** PCK: the mean over pose pairs of each pose's fraction of correct
      joints, or 0 when there are no pairs. */
  function PckOf(actual: seq<Pose>, expected: seq<Pose>, dist: Distance, threshold: real): real
    requires Paired(actual, expected)
  {
    var n := PairCount(actual, expected);
    if n == 0 then 0.0 else TotalAccuracy(actual, expected, n, dist, threshold) / n as real
  }

  /** calculate_mpjpe: a loop over the zipped pairs with a running total. */
  method CalculateMpjpe(actual: seq<Pose>, expected: seq<Pose>, dist: Distance) returns (r: real)
    requires Paired(actual, expected)
    ensures r == MpjpeOf(actual, expected, dist)
    ensures |actual| == 0 || |expected| == 0 ==> r == 0.0
  {
    var total := 0.0;
    var n := 0;
    while n < |actual| && n < |expected|
      invariant n <= |actual| && n <= |expected|
      invariant total == TotalError(actual, expected, n, dist)
    {
      total := total + PoseError(actual[n], expected[n], dist);
      n := n + 1;
    }
    if n == 0 {
      return 0.0;
    }
    r := total / n as real;
  }

  /** calculate_pck: a loop over the zipped pairs with a running total. */
  method CalculatePck(actual: seq<Pose>, expected: seq<Pose>, dist: Distance, threshold: real) returns (r: real)
    requires Paired(actual, expected)
    ensures r == PckOf(actual, expected, dist, threshold)
    ensures |actual| == 0 || |expected| == 0 ==> r == 0.0
  {
    var total := 0.0;
    var n := 0;
    while n < |actual| && n < |expected|
      invariant n <= |actual| && n <= |expected|
      invariant total == TotalAccuracy(actual, expected, n, dist, threshold)
    {
      total := total + PoseAccuracy(actual[n], expected[n], dist, threshold);
      n := n + 1;
    }
    if n == 0 {
      return 0.0;
    }
    r := total / n as real;
  }

  // ---------------------------------------------------------------------
  // Properties of the metrics.
  // ---------------------------------------------------------------------

  ghost predicate ZeroOnIdentical(dist: Distance) { forall p :: dist(p, p) == 0.0 }

  ghost predicate NonNegative(dist: Distance) { forall p, q :: dist(p, q) >= 0.0 }

  ghost predicate Symmetric(dist: Distance) { forall p, q :: dist(p, q) == dist(q, p) }

  lemma {:induction false} TotalsOfPrefix(actual: seq<Pose>, expected: seq<Pose>, m: nat, n: nat, dist: Distance, threshold: real)
    requires n <= m <= |actual| && m <= |expected| && Paired(actual, expected)
    ensures Paired(actual[..m], expected[..m])
    ensures TotalError(actual[..m], expected[..m], n, dist) == TotalError(actual, expected, n, dist)
    ensures TotalAccuracy(actual[..m], expected[..m], n, dist, threshold) == TotalAccuracy(actual, expected, n, dist, threshold)
  {
    if n > 0 {
      TotalsOfPrefix(actual, expected, m, n - 1, dist, threshold);
      assert actual[..m][n - 1] == actual[n - 1] && expected[..m][n - 1] == expected[n - 1];
    }
  }

  /** `zip` stops at the shorter list: poses beyond it do not affect either
      metric. */
  lemma ExtraPosesIgnored(actual: seq<Pose>, expected: seq<Pose>, dist: Distance, threshold: real)
    requires Paired(actual, expected)
    ensures var n := PairCount(actual, expected);
      && Paired(actual[..n], expected[..n])
      && MpjpeOf(actual, expected, dist) == MpjpeOf(actual[..n], expected[..n], dist)
      && PckOf(actual, expected, dist, threshold) == PckOf(actual[..n], expected[..n], dist, threshold)
  {
    var n := PairCount(actual, expected);
    TotalsOfPrefix(actual, expected, n, n, dist, threshold);
    assert PairCount(actual[..n], expected[..n]) == n;
  }

  lemma {:induction false} SumDistsIdentical(a: Pose, dist: Distance)
    requires ZeroOnIdentical(dist)
    ensures SumDists(a, a, dist) == 0.0
  {
    if |a| > 0 {
      SumDistsIdentical(a[1..], dist);
    }
  }

  lemma {:induction false} CountWithinIdentical(a: Pose, dist: Distance, threshold: real)
    requires ZeroOnIdentical(dist) && threshold >= 0.0
    ensures CountWithin(a, a, dist, threshold) == |a|
  {
    if |a| > 0 {
      CountWithinIdentical(a[1..], dist, threshold);
    }
  }

  lemma {:induction false} TotalsIdentical(poses: seq<Pose>, n: nat, dist: Distance, threshold: real)
    requires n <= |poses| && Paired(poses, poses)
    requires ZeroOnIdentical(dist) && threshold >= 0.0
    ensures TotalError(poses, poses, n, dist) == 0.0
    ensures TotalAccuracy(poses, poses, n, dist, threshold) == n as real
  {
    if n > 0 {
      TotalsIdentical(poses, n - 1, dist, threshold);
      SumDistsIdentical(poses[n - 1], dist);
      CountWithinIdentical(poses[n - 1], dist, threshold);
    }
  }

  /** A prediction identical to the ground truth has MPJPE 0 and, for any
      non-negative threshold, PCK 1 (0 when there is nothing to compare). */
  lemma IdenticalPoses(poses: seq<Pose>, dist: Distance, threshold: real)
    requires Paired(poses, poses)
    requires ZeroOnIdentical(dist) && threshold >= 0.0
    ensures MpjpeOf(poses, poses, dist) == 0.0
    ensures PckOf(poses, poses, dist, threshold) == if |poses| == 0 then 0.0 else 1.0
  {
    var n := |poses|;
    TotalsIdentical(poses, n, dist, threshold);
    assert PairCount(poses, poses) == n;
    if n > 0 {
      assert TotalError(poses, poses, n, dist) / n as real == 0.0;
      assert TotalAccuracy(poses, poses, n, dist, threshold) / n as real == 1.0;
    }
  }

  lemma {:induction false} SumDistsSwap(a: Pose, e: Pose, dist: Distance)
    requires |a| == |e| && Symmetric(dist)
    ensures SumDists(a, e, dist) == SumDists(e, a, dist)
  {
    if |a| > 0 {
      SumDistsSwap(a[1..], e[1..], dist);
    }
  }

  lemma {:induction false} TotalErrorSwap(actual: seq<Pose>, expected: seq<Pose>, n: nat, dist: Distance)
    requires n <= |actual| && n <= |expected| && Paired(actual, expected) && Symmetric(dist)
    ensures Paired(expected, actual)
    ensures TotalError(actual, expected, n, dist) == TotalError(expected, actual, n, dist)
  {
    if n > 0 {
      TotalErrorSwap(actual, expected, n - 1, dist);
      SumDistsSwap(actual[n - 1], expected[n - 1], dist);
    }
  }

  /** Without an alignment step MPJPE is symmetric in actual and expected. */
  lemma MpjpeSymmetric(actual: seq<Pose>, expected: seq<Pose>, dist: Distance)
    requires Paired(actual, expected) && Symmetric(dist)
    ensures Paired(expected, actual)
    ensures MpjpeOf(actual, expected, dist) == MpjpeOf(expected, actual, dist)
  {
    TotalErrorSwap(actual, expected, PairCount(actual, expected), dist);
  }

  lemma {:induction false} SumDistsNonNegative(a: Pose, e: Pose, dist: Distance)
    requires |a| == |e| && NonNegative(dist)
    ensures SumDists(a, e, dist) >= 0.0
  {
    if |a| > 0 {
      SumDistsNonNegative(a[1..], e[1..], dist);
    }
  }

  lemma {:induction false} TotalsBounded(actual: seq<Pose>, expected: seq<Pose>, n: nat, dist: Distance, threshold: real)
    requires n <= |actual| && n <= |expected| && Paired(actual, expected) && NonNegative(dist)
    ensures TotalError(actual, expected, n, dist) >= 0.0
    ensures 0.0 <= TotalAccuracy(actual, expected, n, dist, threshold) <= n as real
  {
    if n > 0 {
      TotalsBounded(actual, expected, n - 1, dist, threshold);
      var a, e := actual[n - 1], expected[n - 1];
      SumDistsNonNegative(a, e, dist);
      var c := CountWithin(a, e, dist, threshold);
      assert c as real / |a| as real <= 1.0 by {
        assert c as real <= |a| as real;
      }
    }
  }

  /** MPJPE is never negative and PCK is a fraction in [0, 1]. */
  lemma MetricBounds(actual: seq<Pose>, expected: seq<Pose>, dist: Distance, threshold: real)
    requires Paired(actual, expected) && NonNegative(dist)
    ensures MpjpeOf(actual, expected, dist) >= 0.0
    ensures 0.0 <= PckOf(actual, expected, dist, threshold) <= 1.0
  {
    var n := PairCount(actual, expected);
    TotalsBounded(actual, expected, n, dist, threshold);
    if n > 0 {
      var t := TotalAccuracy(actual, expected, n, dist, threshold);
      assert t / n as real <= 1.0 by {
        assert t <= n as real;
      }
    }
  }

  lemma {:induction false} CountWithinAll(a: Pose, e: Pose, dist: Distance, threshold: real)
    requires |a| == |e|
    ensures CountWithin(a, e, dist, threshold) == |a|
        <==> forall j :: 0 <= j < |a| ==> dist(e[j], a[j]) <= threshold
  {
    if |a| > 0 {
      CountWithinAll(a[1..], e[1..], dist, threshold);
      assert forall j :: 1 <= j < |a| ==> a[1..][j - 1] == a[j] && e[1..][j - 1] == e[j];
    }
  }

  /** A joint is correct when its distance is at most the threshold, the
      boundary included: a pose scores 1 exactly when every joint is within
      the threshold. */
  lemma PoseAccuracyOne(a: Pose, e: Pose, dist: Distance, threshold: real)
    requires |a| == |e| > 0
    ensures PoseAccuracy(a, e, dist, threshold) == 1.0
        <==> forall j :: 0 <= j < |a| ==> dist(e[j], a[j]) <= threshold
  {
    CountWithinAll(a, e, dist, threshold);
    var c := CountWithin(a, e, dist, threshold);
    if c as real / |a| as real == 1.0 {
      assert c as real == |a| as real;
    }
  }

  /** The source's two-joint example: with joint distances 0 and 5 (the
      Euclidean distances of its joint pairs) MPJPE is 2.5, and with
      threshold 4 one joint of two is correct, PCK 0.5. */
  lemma TwoJointExample(dist: Distance)
    requires dist(Vec3(1.0, 1.0, 1.0), Vec3(1.0, 1.0, 1.0)) == 0.0
    requires dist(Vec3(3.0, 4.0, 2.0), Vec3(0.0, 0.0, 2.0)) == 5.0
    ensures var actual := [[Vec3(1.0, 1.0, 1.0), Vec3(0.0, 0.0, 2.0)]];
      var expected := [[Vec3(1.0, 1.0, 1.0), Vec3(3.0, 4.0, 2.0)]];
      && Paired(actual, expected)
      && MpjpeOf(actual, expected, dist) == 2.5
      && PckOf(actual, expected, dist, 4.0) == 0.5
  {
    var a := [Vec3(1.0, 1.0, 1.0), Vec3(0.0, 0.0, 2.0)];
    var e := [Vec3(1.0, 1.0, 1.0), Vec3(3.0, 4.0, 2.0)];
    assert a[1..] == [a[1]] && e[1..] == [e[1]];
    assert a[1..][1..] == [] && e[1..][1..] == [];
    assert SumDists(a, e, dist) == 5.0;
    assert CountWithin(a, e, dist, 4.0) == 1;
    assert TotalError([a], [e], 1, dist) == 2.5;
    assert TotalAccuracy([a], [e], 1, dist, 4.0) == 0.5;
  }

  // ---------------------------------------------------------------------
  // The evaluator.
  // ---------------------------------------------------------------------

  /** The part of a skeleton the evaluator uses: its joint count and the
      index of its root joint. */
  datatype Skeleton = Skeleton(numJoints: nat, rootJoint: nat)

  /** A pose array as passed to `add`: one pose (two axes), or a batch with
      one more leading axis whose elements are pose arrays again. */
  datatype PoseArray = Single(pose: Pose) | Batch(parts: seq<PoseArray>)

  /** The poses of an array in order, leading axes flattened. */
  function Leaves(arr: PoseArray): seq<Pose>
    decreases arr, 1
  {
    match arr
    case Single(p) => [p]
    case Batch(parts) => LeavesUpTo(arr, |parts|)
  }

  /** The poses of the first `n` elements of a batch. */
  function LeavesUpTo(arr: PoseArray, n: nat): seq<Pose>
    requires arr.Batch? && n <= |arr.parts|
    decreases arr, 0, n
  {
    if n == 0 then [] else LeavesUpTo(arr, n - 1) + Leaves(arr.parts[n - 1])
  }

  /** Two arrays with the same shape: numpy's `actual.shape == expected.shape`. */
  predicate SameShape(a: PoseArray, b: PoseArray)
    decreases a
  {
    match a
    case Single(p) => b.Single? && |p| == |b.pose|
    case Batch(ps) =>
      b.Batch? && |ps| == |b.parts| && forall i :: 0 <= i < |ps| ==> SameShape(ps[i], b.parts[i])
  }

  /** Why `add` rejects a pair of pose arrays. */
  datatype AddError = PlausibilityError | ShapeMismatchError

  /** The table collect_results builds, from the raw, root-relative and
      aligned predictions and their ground truths. */
  method MetricTable(actual: seq<Pose>, rrActual: seq<Pose>, aligned: seq<Pose>,
                     expected: seq<Pose>, rrExpected: seq<Pose>, dist: Distance)
    returns (results: seq<(string, real)>)
    requires Paired(actual, expected) && Paired(rrActual, rrExpected) && Paired(aligned, expected)
    ensures |results| == 6
    ensures results[0].0 == MpjpeName && results[1].0 == RrMpjpeName
      && results[2].0 == PaMpjpeName && results[3].0 == PckName
      && results[4].0 == RrPckName && results[5].0 == PaPckName
    ensures results[0].1 == MpjpeOf(actual, expected, dist)
    ensures results[1].1 == MpjpeOf(rrActual, rrExpected, dist)
    ensures results[2].1 == MpjpeOf(aligned, expected, dist)
    ensures results[3].1 == PckOf(actual, expected, dist, DefaultThreshold)
    ensures results[4].1 == PckOf(rrActual, rrExpected, dist, DefaultThreshold)
    ensures results[5].1 == PckOf(aligned, expected, dist, DefaultThreshold)
  {
    var mpjpe := CalculateMpjpe(actual, expected, dist);
    var rrMpjpe := CalculateMpjpe(rrActual, rrExpected, dist);
    var paMpjpe := CalculateMpjpe(aligned, expected, dist);
    var pck := CalculatePck(actual, expected, dist, DefaultThreshold);
    var rrPck := CalculatePck(rrActual, rrExpected, dist, DefaultThreshold);
    var paPck := CalculatePck(aligned, expected, dist, DefaultThreshold);
    results := [
      (MpjpeName, mpjpe),
      (RrMpjpeName, rrMpjpe),
      (PaMpjpeName, paMpjpe),
      (PckName, pck),
      (RrPckName, rrPck),
      (PaPckName, paPck)
    ];
  }

  class Joints3dEvaluator {
    const skeleton: Skeleton
    /** The external plausibility check of one pose for the skeleton. */
    const plausible: Pose -> bool
    /** The external Procrustes alignment: `procrustes(expected, actual)`
        is `actual` aligned onto `expected`. */
    const procrustes: (Pose, Pose) -> Pose

    var actualPoses: seq<Pose>
    var paActualPoses: seq<Pose>
    var expectedPoses: seq<Pose>

    /** The three lists have equal length, hold poses of the skeleton's
        joint count, and the aligned list is the alignment of the other two,
        element by element. */
    ghost predicate Valid()
      reads this
    {
      && skeleton.rootJoint < skeleton.numJoints
      && (forall e, a :: |procrustes(e, a)| == |a|)
      && |actualPoses| == |paActualPoses| == |expectedPoses|
      && (forall i :: 0 <= i < |actualPoses| ==>
            |actualPoses[i]| == skeleton.numJoints && |expectedPoses[i]| == skeleton.numJoints)
      && (forall i :: 0 <= i < |actualPoses| ==>
            paActualPoses[i] == procrustes(expectedPoses[i], actualPoses[i]))
    }

    constructor (skeleton: Skeleton, plausible: Pose -> bool, procrustes: (Pose, Pose) -> Pose)
      requires skeleton.rootJoint < skeleton.numJoints
      requires forall e, a :: |procrustes(e, a)| == |a|
      ensures Valid()
      ensures this.skeleton == skeleton && this.plausible == plausible && this.procrustes == procrustes
      ensures actualPoses == [] && paActualPoses == [] && expectedPoses == []
    {
      this.skeleton := skeleton;
      this.plausible := plausible;
      this.procrustes := procrustes;
      actualPoses, paActualPoses, expectedPoses := [], [], [];
    }

    /** assert_plausible_skeleton on an array: every pose in it has the
        skeleton's joint count and passes the external check. */
    predicate Plausible(arr: PoseArray)
      decreases arr
    {
      match arr
      case Single(p) => |p| == skeleton.numJoints && plausible(p)
      case Batch(ps) => forall i :: 0 <= i < |ps| ==> Plausible(ps[i])
    }

    /** The checks `add` makes before it changes anything, in source order. */
    function Check(actual: PoseArray, expected: PoseArray): Option<AddError>
    {
      if !Plausible(actual) || !Plausible(expected) then Some(PlausibilityError)
      else if !SameShape(actual, expected) then Some(ShapeMismatchError)
      else None
    }

    /** Adds a pose pair, or a batch of them expanded recursively along the
        leading axis. A rejected pair leaves the evaluator unchanged; an
        accepted one appends its poses, in order, to the three lists. */
    method Add(actual: PoseArray, expected: PoseArray) returns (error: Option<AddError>)
      requires Valid()
      modifies this
      decreases actual
      ensures Valid()
      ensures error == Check(actual, expected)
      ensures error.Some? ==> unchanged(this)
      ensures error.None? ==> (actualPoses == old(actualPoses) + Leaves(actual)
        && expectedPoses == old(expectedPoses) + Leaves(expected))
    {
      if !Plausible(actual) || !Plausible(expected) {
        return Some(PlausibilityError);
      }
      if !SameShape(actual, expected) {
        return Some(ShapeMismatchError);
      }
      error := None;
      match actual
      case Single(a) =>
        AddPair(a, expected.pose);
      case Batch(parts) =>
        var i := 0;
        while i < |parts|
          invariant i <= |parts|
          invariant Valid()
          invariant actualPoses == old(actualPoses) + LeavesUpTo(actual, i)
          invariant expectedPoses == old(expectedPoses) + LeavesUpTo(expected, i)
        {
          var partError := Add(parts[i], expected.parts[i]);
          assert partError.None?;
          i := i + 1;
        }
    }

    /** The single-pose case of `add`: the pair and its alignment are
        appended to the three lists. */
    method AddPair(a: Pose, e: Pose)
      requires Valid() && |a| == skeleton.numJoints && |e| == skeleton.numJoints
      modifies this
      ensures Valid()
      ensures actualPoses == old(actualPoses) + [a] && expectedPoses == old(expectedPoses) + [e]
      ensures paActualPoses == old(paActualPoses) + [procrustes(e, a)]
    {
      actualPoses := actualPoses + [a];
      paActualPoses := paActualPoses + [procrustes(e, a)];
      expectedPoses := expectedPoses + [e];
    }

    /** The number of poses accumulated so far. */
    function Length(): (n: nat)
      reads this
      requires Valid()
      ensures n == |actualPoses| == |paActualPoses| == |expectedPoses|
    {
      |actualPoses|
    }

    /** `_to_rr`: each pose made relative to the skeleton's root joint, one
        output per input in order. The metrics' lemmas carry what this
        mapping means for the results. */
    function ToRr(poses: seq<Pose>): (r: seq<Pose>)
      requires forall i :: 0 <= i < |poses| ==> skeleton.rootJoint < |poses[i]|
      ensures |r| == |poses|
      ensures forall i :: 0 <= i < |poses| ==> r[i] == RootRelative(poses[i], skeleton.rootJoint)
    {
      seq(|poses|, i requires 0 <= i < |poses| => RootRelative(poses[i], skeleton.rootJoint))
    }

    lemma StoredPosesPaired()
      requires Valid()
      ensures Paired(actualPoses, expectedPoses)
      ensures Paired(paActualPoses, expectedPoses)
      ensures Paired(ToRr(actualPoses), ToRr(expectedPoses))
    {
    }

    method Mpjpe(dist: Distance) returns (r: real)
      requires Valid()
      ensures Paired(actualPoses, expectedPoses)
      ensures r == MpjpeOf(actualPoses, expectedPoses, dist)
    {
      StoredPosesPaired();
      r := CalculateMpjpe(actualPoses, expectedPoses, dist);
    }

    method RrMpjpe(dist: Distance) returns (r: real)
      requires Valid()
      ensures Paired(ToRr(actualPoses), ToRr(expectedPoses))
      ensures r == MpjpeOf(ToRr(actualPoses), ToRr(expectedPoses), dist)
    {
      StoredPosesPaired();
      r := CalculateMpjpe(ToRr(actualPoses), ToRr(expectedPoses), dist);
    }

    method PaMpjpe(dist: Distance) returns (r: real)
      requires Valid()
      ensures Paired(paActualPoses, expectedPoses)
      ensures r == MpjpeOf(paActualPoses, expectedPoses, dist)
    {
      StoredPosesPaired();
      r := CalculateMpjpe(paActualPoses, expectedPoses, dist);
    }

    method Pck(dist: Distance, threshold: real) returns (r: real)
      requires Valid()
      ensures Paired(actualPoses, expectedPoses)
      ensures r == PckOf(actualPoses, expectedPoses, dist, threshold)
    {
      StoredPosesPaired();
      r := CalculatePck(actualPoses, expectedPoses, dist, threshold);
    }

    method RrPck(dist: Distance, threshold: real) returns (r: real)
      requires Valid()
      ensures Paired(ToRr(actualPoses), ToRr(expectedPoses))
      ensures r == PckOf(ToRr(actualPoses), ToRr(expectedPoses), dist, threshold)
    {
      StoredPosesPaired();
      r := CalculatePck(ToRr(actualPoses), ToRr(expectedPoses), dist, threshold);
    }

    method PaPck(dist: Distance, threshold: real) returns (r: real)
      requires Valid()
      ensures Paired(paActualPoses, expectedPoses)
      ensures r == PckOf(paActualPoses, expectedPoses, dist, threshold)
    {
      StoredPosesPaired();
      r := CalculatePck(paActualPoses, expectedPoses, dist, threshold);
    }

    /** The six metrics, named, in their fixed order; PCK uses the default
        threshold. Each value is the one the matching metric method above
        returns. */
    method CollectResults(dist: Distance) returns (results: seq<(string, real)>)
      requires Valid()
      ensures |results| == 6
      ensures results[0].0 == MpjpeName && results[1].0 == RrMpjpeName
        && results[2].0 == PaMpjpeName && results[3].0 == PckName
        && results[4].0 == RrPckName && results[5].0 == PaPckName
      ensures Paired(actualPoses, expectedPoses) && Paired(paActualPoses, expectedPoses)
        && Paired(ToRr(actualPoses), ToRr(expectedPoses))
      ensures results[0].1 == MpjpeOf(actualPoses, expectedPoses, dist)
      ensures results[1].1 == MpjpeOf(ToRr(actualPoses), ToRr(expectedPoses), dist)
      ensures results[2].1 == MpjpeOf(paActualPoses, expectedPoses, dist)
      ensures results[3].1 == PckOf(actualPoses, expectedPoses, dist, DefaultThreshold)
      ensures results[4].1 == PckOf(ToRr(actualPoses), ToRr(expectedPoses), dist, DefaultThreshold)
      ensures results[5].1 == PckOf(paActualPoses, expectedPoses, dist, DefaultThreshold)
    {
      StoredPosesPaired();
      results := MetricTable(actualPoses, ToRr(actualPoses), paActualPoses,
                             expectedPoses, ToRr(expectedPoses), dist);
    }

    /** An evaluator that has seen no pose reports 0 for all six metrics. */
    lemma EmptyResults(dist: Distance, threshold: real)
      requires Valid() && |actualPoses| == 0
      ensures Paired(actualPoses, expectedPoses) && Paired(paActualPoses, expectedPoses)
        && Paired(ToRr(actualPoses), ToRr(expectedPoses))
      ensures MpjpeOf(actualPoses, expectedPoses, dist) == 0.0
      ensures MpjpeOf(ToRr(actualPoses), ToRr(expectedPoses), dist) == 0.0
      ensures MpjpeOf(paActualPoses, expectedPoses, dist) == 0.0
      ensures PckOf(actualPoses, expectedPoses, dist, threshold) == 0.0
      ensures PckOf(ToRr(actualPoses), ToRr(expectedPoses), dist, threshold) == 0.0
      ensures PckOf(paActualPoses, expectedPoses, dist, threshold) == 0.0
    {
      StoredPosesPaired();
    }
  }

  // ---------------------------------------------------------------------
  // Finding the prediction file for a clip and camera.
  // ---------------------------------------------------------------------

  /** A file found under the predictions directory: the directory it is in
      and its base name. */
  datatype PredFile = PredFile(dir: string, name: string)

  /** The files whose name matches the glob `{prefix}*`, in search order. */
  function Glob(files: seq<PredFile>, prefix: string): (r: seq<PredFile>)
    ensures forall f :: f in r <==> f in files && IsPrefix(prefix, f.name)
  {
    Filter(files, (f: PredFile) => IsPrefix(prefix, f.name))
  }

  function QueryName(subjectId: string, clipId: string, cameraId: string): string
  {
    subjectId + "-" + clipId + "-" + cameraId
  }

  /** The files considered for the query: those named `{s}-{c}-{cam}.*`,
      then, when files without a camera are accepted, those named
      `{s}-{c}.*`. */
  function Candidates(files: seq<PredFile>, subjectId: string, clipId: string, cameraId: string,
                      includeUnknownCamera: bool): seq<PredFile>
  {
    Glob(files, QueryName(subjectId, clipId, cameraId) + ".")
      + (if includeUnknownCamera then Glob(files, subjectId + "-" + clipId + ".") else [])
  }

  /** find_and_load_prediction without the loading: the one candidate
      file, or the error for none or for several. */
  function FindPrediction(files: seq<PredFile>, subjectId: string, clipId: string, cameraId: string,
                          includeUnknownCamera: bool): (r: Result<PredFile, string>)
    ensures var c := Candidates(files, subjectId, clipId, cameraId, includeUnknownCamera);
      && (|c| == 0 ==> r == Err("no prediction file found for " + QueryName(subjectId, clipId, cameraId)))
      && (|c| > 1 ==> r == Err("multiple prediction files found for " + QueryName(subjectId, clipId, cameraId)))
      && (|c| == 1 <==> r.Ok?)
    ensures r.Ok? ==> (r.value in files
      && (IsPrefix(QueryName(subjectId, clipId, cameraId) + ".", r.value.name)
          || (includeUnknownCamera && IsPrefix(subjectId + "-" + clipId + ".", r.value.name))))
  {
    var c := Candidates(files, subjectId, clipId, cameraId, includeUnknownCamera);
    if |c| == 0 then Err("no prediction file found for " + QueryName(subjectId, clipId, cameraId))
    else if |c| > 1 then Err("multiple prediction files found for " + QueryName(subjectId, clipId, cameraId))
    else
      assert c[0] in c;
      Ok(c[0])
  }

  /** A file answers the query: it is named `{s}-{c}-{cam}.*`, or `{s}-{c}.*`
      when files without a camera are accepted. */
  predicate MatchesQuery(f: PredFile, subjectId: string, clipId: string, cameraId: string,
                         includeUnknownCamera: bool)
  {
    IsPrefix(QueryName(subjectId, clipId, cameraId) + ".", f.name)
    || (includeUnknownCamera && IsPrefix(subjectId + "-" + clipId + ".", f.name))
  }

  /** No name matches both globs: after `{s}-{c}` one has `-`, the other `.`. */
  lemma PatternsDisjoint(subjectId: string, clipId: string, cameraId: string, name: string)
    ensures !(IsPrefix(QueryName(subjectId, clipId, cameraId) + ".", name)
              && IsPrefix(subjectId + "-" + clipId + ".", name))
  {
    var p := QueryName(subjectId, clipId, cameraId) + ".";
    var q := subjectId + "-" + clipId + ".";
    var k := |subjectId| + 1 + |clipId|;
    assert p == (subjectId + "-" + clipId) + "-" + (cameraId + ".");
    assert p[k] == '-' && q[k] == '.';
    assert IsPrefix(p, name) ==> name[k] == '-' by {
      if IsPrefix(p, name) {
        assert name[..|p|][k] == name[k];
      }
    }
    assert IsPrefix(q, name) ==> name[k] == '.' by {
      if IsPrefix(q, name) {
        assert name[..|q|][k] == name[k];
      }
    }
  }

  /** A listed file occurs among the candidates as often as in the listing
      when it matches the query, and not at all otherwise. */
  lemma CandidatesCount(files: seq<PredFile>, subjectId: string, clipId: string, cameraId: string,
                        includeUnknownCamera: bool, x: PredFile)
    ensures multiset(Candidates(files, subjectId, clipId, cameraId, includeUnknownCamera))[x]
         == if MatchesQuery(x, subjectId, clipId, cameraId, includeUnknownCamera) then multiset(files)[x] else 0
  {
    var p := QueryName(subjectId, clipId, cameraId) + ".";
    var q := subjectId + "-" + clipId + ".";
    FilterCount(files, (f: PredFile) => IsPrefix(p, f.name), x);
    FilterCount(files, (f: PredFile) => IsPrefix(q, f.name), x);
    PatternsDisjoint(subjectId, clipId, cameraId, x.name);
  }

  /** The file found is listed, matches the query and is the only listed
      file that does. */
  lemma FoundIsOnlyMatch(files: seq<PredFile>, subjectId: string, clipId: string, cameraId: string,
                         includeUnknownCamera: bool, f: PredFile)
    requires FindPrediction(files, subjectId, clipId, cameraId, includeUnknownCamera) == Ok(f)
    ensures f in files && MatchesQuery(f, subjectId, clipId, cameraId, includeUnknownCamera)
    ensures forall g :: g in files && MatchesQuery(g, subjectId, clipId, cameraId, includeUnknownCamera) ==> g == f
  {
    var c := Candidates(files, subjectId, clipId, cameraId, includeUnknownCamera);
    assert |c| == 1 && c[0] == f;
    forall g | g in files && MatchesQuery(g, subjectId, clipId, cameraId, includeUnknownCamera)
      ensures g == f
    {
      CandidatesCount(files, subjectId, clipId, cameraId, includeUnknownCamera, g);
      assert g in multiset(c);
      assert c == [f];
    }
  }

  /** In a listing where each file appears once (as `rglob` yields it), the
      only listed file that matches the query is found. */
  lemma OnlyMatchIsFound(files: seq<PredFile>, subjectId: string, clipId: string, cameraId: string,
                         includeUnknownCamera: bool, f: PredFile)
    requires Distinct(files)
    requires f in files && MatchesQuery(f, subjectId, clipId, cameraId, includeUnknownCamera)
    requires forall g :: g in files && MatchesQuery(g, subjectId, clipId, cameraId, includeUnknownCamera) ==> g == f
    ensures FindPrediction(files, subjectId, clipId, cameraId, includeUnknownCamera) == Ok(f)
  {
    var c := Candidates(files, subjectId, clipId, cameraId, includeUnknownCamera);
    assert multiset(c) == multiset{f} by {
      forall x
        ensures multiset(c)[x] == multiset{f}[x]
      {
        CandidatesCount(files, subjectId, clipId, cameraId, includeUnknownCamera, x);
        if x == f {
          DistinctOnce(files, f);
        }
      }
    }
    assert |c| == |multiset(c)| == 1;
    assert c[0] in multiset(c);
  }

  /** In a listing where each file appears once, the query finds `f` exactly
      when `f` is the only listed file that matches it. */
  lemma FindPredictionUnique(files: seq<PredFile>, subjectId: string, clipId: string, cameraId: string,
                             includeUnknownCamera: bool, f: PredFile)
    requires Distinct(files)
    ensures FindPrediction(files, subjectId, clipId, cameraId, includeUnknownCamera) == Ok(f)
      <==> (f in files && MatchesQuery(f, subjectId, clipId, cameraId, includeUnknownCamera)
            && forall g :: g in files && MatchesQuery(g, subjectId, clipId, cameraId, includeUnknownCamera) ==> g == f)
  {
    if FindPrediction(files, subjectId, clipId, cameraId, includeUnknownCamera) == Ok(f) {
      FoundIsOnlyMatch(files, subjectId, clipId, cameraId, includeUnknownCamera, f);
    }
    if f in files && MatchesQuery(f, subjectId, clipId, cameraId, includeUnknownCamera)
       && forall g :: g in files && MatchesQuery(g, subjectId, clipId, cameraId, includeUnknownCamera) ==> g == f
    {
      OnlyMatchIsFound(files, subjectId, clipId, cameraId, includeUnknownCamera, f);
    }
  }

  /** A string is not a prefix of another once they differ at some index. */
  lemma NotPrefixAt(p: string, s: string, k: nat)
    requires k < |p| && k < |s| && p[k] != s[k]
    ensures !IsPrefix(p, s)
  {
    if |p| <= |s| {
      assert s[..|p|][k] == s[k];
    }
  }

  /** The glob over a three-file listing, one membership test per file. */
  lemma GlobOfThree(files: seq<PredFile>, prefix: string)
    requires |files| == 3
    ensures Glob(files, prefix)
         == (if IsPrefix(prefix, files[0].name) then [files[0]] else [])
          + (if IsPrefix(prefix, files[1].name) then [files[1]] else [])
          + (if IsPrefix(prefix, files[2].name) then [files[2]] else [])
  {
    var keep := (f: PredFile) => IsPrefix(prefix, f.name);
    assert files[1..][1..] == [files[2]];
    assert files[1..][1..][1..] == [];
    calc {
      Filter(files, keep);
      (if keep(files[0]) then [files[0]] else []) + Filter(files[1..], keep);
      (if keep(files[0]) then [files[0]] else [])
        + ((if keep(files[1]) then [files[1]] else []) + Filter(files[1..][1..], keep));
      (if keep(files[0]) then [files[0]] else [])
        + ((if keep(files[1]) then [files[1]] else [])
        + ((if keep(files[2]) then [files[2]] else []) + Filter(files[1..][1..][1..], keep)));
    }
  }

  /** The prediction files of the source's tests, all in one directory. */
  function ExampleFiles(): seq<PredFile>
  {
    [PredFile("preds", "1e28-0001.c3d"), PredFile("preds", "1e28-0001-right.c3d"),
     PredFile("preds", "8a59-0035-left.c3d")]
  }

  /** The query for the left camera of clip 8a59/0035 matches the third file only. */
  lemma CandidatesFound()
    ensures Candidates(ExampleFiles(), "8a59", "0035", "left", false) == [ExampleFiles()[2]]
  {
    var files := ExampleFiles();
    var p := QueryName("8a59", "0035", "left") + ".";
    assert p == "8a59-0035-left.";
    NotPrefixAt(p, files[0].name, 0);
    NotPrefixAt(p, files[1].name, 0);
    assert IsPrefix(p, files[2].name);
    GlobOfThree(files, p);
  }

  /** The file for a camera is found by its camera suffix. */
  lemma FindPredictionFound()
    ensures FindPrediction(ExampleFiles(), "8a59", "0035", "left", false) == Ok(ExampleFiles()[2])
  {
    CandidatesFound();
  }

  /** The query for the right camera of clip 1e28/0001 matches the second file only. */
  lemma CandidatesRight()
    ensures Candidates(ExampleFiles(), "1e28", "0001", "right", false) == [ExampleFiles()[1]]
  {
    var files := ExampleFiles();
    var p := QueryName("1e28", "0001", "right") + ".";
    assert p == "1e28-0001-right.";
    NotPrefixAt(p, files[0].name, 9);
    assert IsPrefix(p, files[1].name);
    NotPrefixAt(p, files[2].name, 0);
    GlobOfThree(files, p);
  }

  /** A file without a camera suffix is ignored unless it is allowed. */
  lemma FindPredictionIgnoringUnknownCamera()
    ensures FindPrediction(ExampleFiles(), "1e28", "0001", "right", false) == Ok(ExampleFiles()[1])
  {
    CandidatesRight();
  }

  /** The pattern without a camera for clip 1e28/0001 matches the first file only. */
  lemma GlobUnknownCamera()
    ensures Glob(ExampleFiles(), "1e28" + "-" + "0001" + ".") == [ExampleFiles()[0]]
  {
    var files := ExampleFiles();
    var q := "1e28" + "-" + "0001" + ".";
    assert q == "1e28-0001.";
    assert IsPrefix(q, files[0].name);
    NotPrefixAt(q, files[1].name, 9);
    NotPrefixAt(q, files[2].name, 0);
    GlobOfThree(files, q);
  }

  /** The query for the left camera of clip 1e28/0001 matches no camera-specific file. */
  lemma GlobLeft()
    ensures Glob(ExampleFiles(), QueryName("1e28", "0001", "left") + ".") == []
  {
    var files := ExampleFiles();
    var p := QueryName("1e28", "0001", "left") + ".";
    assert p == "1e28-0001-left.";
    NotPrefixAt(p, files[0].name, 9);
    NotPrefixAt(p, files[1].name, 10);
    NotPrefixAt(p, files[2].name, 0);
    GlobOfThree(files, p);
  }

  /** When allowed, a file without a camera suffix stands for the camera. */
  lemma FindPredictionUnknownCamera()
    ensures FindPrediction(ExampleFiles(), "1e28", "0001", "left", true) == Ok(ExampleFiles()[0])
  {
    GlobLeft();
    GlobUnknownCamera();
    assert Candidates(ExampleFiles(), "1e28", "0001", "left", true) == [ExampleFiles()[0]];
  }

  /** Allowing files without a camera next to a camera-specific file makes
      the query ambiguous. */
  lemma FindPredictionMultiple()
    ensures FindPrediction(ExampleFiles(), "1e28", "0001", "right", true)
         == Err("multiple prediction files found for 1e28-0001-right")
  {
    CandidatesRight();
    GlobUnknownCamera();
    assert |Candidates(ExampleFiles(), "1e28", "0001", "right", true)| == 2;
    MultipleMessage();
  }

  /** The ambiguity message names the query. */
  lemma MultipleMessage()
    ensures "multiple prediction files found for " + QueryName("1e28", "0001", "right")
         == "multiple prediction files found for 1e28-0001-right"
  {
  }

  /** The query for the right camera of clip 8a59/0035 matches no file. */
  lemma CandidatesNotFound()
    ensures Candidates(ExampleFiles(), "8a59", "0035", "right", false) == []
  {
    var files := ExampleFiles();
    var p := QueryName("8a59", "0035", "right") + ".";
    assert p == "8a59-0035-right.";
    NotPrefixAt(p, files[0].name, 0);
    NotPrefixAt(p, files[1].name, 0);
    NotPrefixAt(p, files[2].name, 10);
    GlobOfThree(files, p);
  }

  /** A missing file is reported with the clip and camera it was for. */
  lemma FindPredictionNotFound()
    ensures FindPrediction(ExampleFiles(), "8a59", "0035", "right", false)
         == Err("no prediction file found for 8a59-0035-right")
  {
    CandidatesNotFound();
    NotFoundMessage();
  }

  /** The missing-file message names the query. */
  lemma NotFoundMessage()
    ensures "no prediction file found for " + QueryName("8a59", "0035", "right")
         == "no prediction file found for 8a59-0035-right"
  {
  }
}
